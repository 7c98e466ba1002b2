# Verification model of ssh-autoproxy

ssh-autoproxy keeps SSH tunnels to jump hosts alive and decides, per network and per destination,
whether a connection goes direct or through a tunnel. This project models its five interacting parts in
Dafny and proves what they promise, for every input, every schedule and every run:

- **The SOCKS5 front door.** Both ends of RFC 1928 as the proxy speaks it (`Socks`, `SocksIo`), running
  against each other over fragmenting FIFO streams (`SocksNet`), byte for byte (`Wire`), with dialling, error mapping, deadlines and
  chains of front doors (`FrontDoor`, `Proxy`), and the relay that must not lose pipelined bytes (`Relay`).
- **The life of `Server`** (`Lifecycle`): accept loop, handlers and `Shutdown` as interleaving goroutines.
- **Routing**, decided twice: by the proxy's table and by the generated PAC program (`Routing`), over the
  validated configuration (`Configuration`) and text helpers (`Text`).
- **The daemon**: `applyState` and its change cache (`Daemon`), the debounced wakeups (`Wakeups`), reloads
  (`Reload`), and the supervisors with their backoff (`Supervisor`, `Backoff`).
- **Bookkeeping**: notification cooldown (`Cooldown`), nmcli output (`Terse`), self-update (`Update`).

Concurrent code is a state machine whose events are the atomic steps (a section under a lock, one read, one
write, one channel operation); theorems quantify over every sequence of enabled events. Sequential code that
changes variables or fields is a method or class, proved equal to the function the theorems are about.

## How to read it

- In `Socks` each end is a *reactor*: a program counter, the bytes the next `io.ReadFull` needs, and what is
  done with them. `Serve` and `Connect` run a reactor on a whole stream, `SocksNet.Step` one read at a time, and the
  methods of `SocksIo` are the code itself, proved to do what the reactors do.
- IP address text is a parameter (`IpText`) with the laws `netip` documents: parsing yields 4 or 16 octets, and
  a zone-free address reads back from its text.
- A client's connection takes some number of bytes and then fails; a dial has an end, counted from the moment the
  client was accepted. A reply that finds the deadline passed is not written, and the code does not notice.
- In `Routing` an IPv4 address is 32 bits, the PAC program is a syntax tree, and the theorems are about patterns of
  the fragment the two matchers share (`InFragment`): literals, `*` and `?`. Text is ASCII for case folding.
- Nothing is assumed about other libraries except through such parameters: DNS, SHA-256, gzip, tar and the loopback test
  are functions the theorems quantify over.

## Where the code and its promises part

- The deadline set at accept covers the reply, whose write error is ignored. A dial that runs into its own timeout
  always ends past it, so its code never reaches the client (`FrontDoor.TimeoutIsNeverReported`); a dial that succeeds
  past it is relayed with no reply, and the client reads the upstream's first bytes as one (`Relay.RelayWithoutReply`,
  `FrontDoor.BannerReadAsReply`). `FrontDoor.CodeIsTransparentIff` gives the exact condition under which the far end's
  outcome passes a chain of front doors (by the clock: the first door is in time, `FrontDoor.OutcomeOnTheClock`), and
  `Relay.ClientIsSent` that of one connection.
- A relay has no deadline: a peer that stops reading holds its direction up for good (`Relay.RelayWaitsOnlyForPeers`).
- `nextDelay`'s guard `raw <= 0` misses some 64-bit wrap-arounds (`Backoff.GuardMissesAWrap`); `Backoff.RawIsExactIff` says
  exactly when the delay is the exponential it is meant to be. The positive, capped delay holds for all inputs.
- `Stop` waits for the newest run loop only, so an older, cancelled ssh can outlive it
  (`Supervisor.StopCanLeaveAnOlderLoop`); `Supervisor.StopIsCompleteIff` gives the condition.
- The PAC compares hosts and patterns as spelled, resolves names in `isInNet`, and treats a route with no recorded state as
  direct; the table folds case, drops a trailing dot, never resolves, and treats such a route as needing its tunnel
  (`Routing.SpellingMatters`, `Routing.ResolvingMatters`). `Routing.PacAgreesWithTable` says exactly when they agree all the
  same. The daemon always records every state (`Daemon.ServedPacFollowsServedTable`).
- With no routes the PAC body is never generated (`Daemon.PacIsServedIff`).
- Triggers received less than the debounce interval apart postpone `applyState` for as long as they keep coming
  (`Wakeups.TriggersCanPostpone`); `Wakeups.BetweenReceives` says exactly when it runs between two of them. At the tie the
  `select` may go either way (`Wakeups.TieGoesEitherWay`).
- A notification recorded at the zero time never suppresses another (`Cooldown.NotifiesAfterCooldown`).

## Model

| member | source | states |
|---|---|---|
| Socks.AcceptsExactlyTheGrammar | internal/proxy/socks.go:71-118 | for every byte stream, readSocksRequest yields (host, port) and leaves `rest` unread iff the stream is a greeting offering no-auth, then a CONNECT to that destination in the grammar of RFC 1928 sections 3 to 5, then `rest` |
| Socks.DecodeHandshake | internal/proxy/socks.go:71-147 | every handshake of the grammar, with any method list containing no-auth and any reserved byte, decodes to its destination and port, with what follows untouched |
| Socks.ParseHandshake | internal/proxy/socks.go:71-118 | an accepted stream splits into exactly one handshake and the unread rest |
| Socks.ServeExtends | internal/proxy/socks.go:71-118 | a request's outcome depends only on the bytes it consumed; later bytes are left unread |
| Socks.ServeIsLegal | internal/proxy/socks.go:89-117 | before dialling, the server writes nothing, a refusal, an acceptance, or an acceptance and one 10-byte failure reply; never a success, and exactly the acceptance when a dial follows |
| SocksIo.ReadAddr | internal/proxy/socks.go:121-147 | reads one address field of the given type, or fails on an unknown type or a short stream |
| SocksIo.ServeAddress | internal/proxy/socks.go:103-108 | any failure inside the address field, a short read included, is answered with code 8 |
| SocksIo.ConnectAddress | internal/proxy/socks.go:198-204 | the client discards the bound address of a success reply with the same reader |
| SocksIo.OffersNoAuth | internal/proxy/socks.go:83-88 | the scan finds the no-auth method iff it is offered |
| SocksIo.AgreeMethod | internal/proxy/socks.go:72-95 | the greeting is accepted, refused or cut short exactly as the reactor says, also when the client stops taking bytes |
| SocksIo.ReadSocksRequest | internal/proxy/socks.go:71-118 | the code returns what the reactor reaches on every stream and leaves the reader just past the request; it writes the reactor's bytes as far as the connection takes them |
| SocksIo.WriteSocksReply | internal/proxy/socks.go:149-153 | sends the 10-byte reply, or its prefix when the connection fails |
| SocksIo.SocksConnect | internal/proxy/socks.go:158-205 | the client code ends with the reactor's outcome and leaves everything after the reply unread, or reports the failed write |
| SocksIo.ReadReply | internal/proxy/socks.go:190-205 | a non-zero reply code becomes that code's error; a success consumes exactly its bound address and port |
| Wire.MessagesAre | internal/proxy/socks.go:149-182 | the bytes on the wire are those of RFC 1928, sections 3 to 6: greeting, answers, reply, and for every host the CONNECT request with its address type, address or length and name, and port in network order |
| Wire.ServerSaysSo | internal/proxy/socks.go:71-118 | on every stream the server writes before a dial exactly what a reading of the whole stream calls for: nothing, 5 255, or 5 0 and then 8 for an address and 7 for a command it does not take |
| Wire.DialsWhatIsSent | internal/proxy/socks.go:134-146 | a CONNECT by name is dialled for that name and port 256 hi + lo, with what follows left unread |
| Wire.ClientEndsSo | internal/proxy/socks.go:158-205 | on every stream the client ends where a reading of the whole stream says: connected with exactly the payload left, or with the refusal's code, a refused method, an unknown address type or a short reply |
| SocksNet.InvAlways | internal/proxy/socks.go:71-205 | in every reachable state an end still there has exactly the part of the other's stream left that its program counter expects, or a beginning of it if the other has broken off |
| SocksNet.NoDeadlock | internal/proxy/socks.go:71-205 | under any schedule and fragmentation, and whoever has broken off, an unfinished handshake has an enabled step, as long as no success is left unreported |
| SocksNet.UnreportedSuccessStalls | internal/proxy/server.go:180-182 | behind a success whose reply was not written nothing moves until the upstream sends or an end breaks off |
| SocksNet.Terminates | internal/proxy/socks.go:71-205 | every payload-free schedule is bounded, so the handshake completes |
| SocksNet.HandshakeOutcome | internal/proxy/socks.go:158-205 | in every finished schedule a server still there has asked the dial for the canonical, zone-free host and the 16-bit port, or gave up on a client that broke off or never sent its request; a client still there has the dial's code if enough of the reply went out, unless the server broke off; all later bytes of both directions are unread; a hostname over 255 bytes is never sent |
| SocksNet.OnlyTheDialCanFail | internal/proxy/socks.go:71-205 | no schedule makes either end see a bad version or a refused method; a short read is seen only of a peer that broke off, a client that never sent its request, or a reply that was cut |
| SocksNet.BreakingOffIsSafe | internal/proxy/socks.go:71-205 | whenever either end breaks off and whatever the other does then, only the canonical destination is ever asked for, nothing by a server that gives up, and a connected client has a server whose dial succeeded |
| SocksNet.BreakIsNoticed | internal/proxy/socks.go:162-165 | a server that breaks off before it answers leaves the client with a short reply |
| FrontDoor.RequestRoundTrip | internal/proxy/socks.go:165-182 | the server decodes what the client encodes, canonical host and truncated port, with pipelined bytes left unread |
| FrontDoor.ReplyRoundTrip | internal/proxy/socks.go:190-205 | the client reads every reply the server writes: success leaves the relayed bytes, a refusal carries its code |
| FrontDoor.DialErrorIsNotSuccess | internal/proxy/server.go:230-267 | replyCode of any error dial can return is non-zero |
| FrontDoor.CodeCalledFor | internal/proxy/socks.go:45-66 | replyCode gives each error exactly the code it calls for by its layers: the first SOCKS layer's; else 4 for a failed lookup or a first operation that timed out; 5 if that did not and the connection was refused; 1 otherwise |
| FrontDoor.TranscriptIsLegal | internal/proxy/server.go:164-183 | whatever the client sends it sees the beginning of a legal transcript; a whole success reply iff there is a live upstream, the server is not closing, and the dial ended in time with room for the reply; the success code never without a live upstream; no reply when the dial ends late or the server is closing |
| FrontDoor.HandleSocks | internal/proxy/server.go:147-183 | the code writes that transcript and relays iff it found a live upstream, from just past the request; given time and room, it sends 5 0 and a reply whose second byte is 0 or the code the dial's error calls for |
| FrontDoor.DoorOutcome | internal/proxy/server.go:228-267 | through any chain a refusal never becomes a connection and no payload is made up; a door's dial has the far end's code and payload, and its reply gets out, iff that code passes the chain |
| FrontDoor.CodeIsTransparentIff | internal/proxy/socks.go:45-66 | through any number of chained front doors the client gets the outcome of the last dial, made for the canonical host and 16-bit port, with every payload byte still to be read, iff each door gets its reply out in time or an error put in the place of a lost one has the same code |
| FrontDoor.PromptPasses | internal/proxy/server.go:147-148 | a success passes exactly the chains with no late door, and those pass every code |
| FrontDoor.CodeIsTransparent | internal/proxy/socks.go:45-66 | with no late door the client always gets the last dial's code and payload |
| FrontDoor.PassesInTime | internal/proxy/server.go:147-148 | by the clock, a code only passes doors that are in time; over sound connections it passes iff the first door is in time |
| FrontDoor.OutcomeOnTheClock | internal/proxy/server.go:147-183 | over sound connections the client gets the far end's code, and all its payload, iff the first door's dial ends before its client's deadline |
| FrontDoor.LostReplyCanAgree | internal/proxy/socks.go:190-193 | a general failure whose reply was lost to a broken connection is reported as a general failure one door further |
| FrontDoor.TimeoutIsNeverReported | internal/proxy/server.go:27-31 | a dial, direct or through a tunnel, that fails after its own timeout gives the client a short reply and no code |
| FrontDoor.BannerReadAsReply | internal/proxy/server.go:180-182 | behind a late success an SSH banner is read as reply code 0x53 |
| FrontDoor.ClientBytesArrive | internal/proxy/server.go:183 | through any chain, everything the client sends behind its request reaches the far end in order if the first door's dial succeeds, and nothing does if it fails |
| Proxy.TunnelledIsNeverDirect | internal/proxy/server.go:242-258 | a host whose route needs its tunnel or has unknown state gets the same conversation whatever the direct network would answer, and a success only through its own tunnel |
| Proxy.DirectIsNeverTunnelled | internal/proxy/server.go:242-249 | a host of no route, or of one called direct, gets the same conversation whatever the tunnels would answer |
| Proxy.SuccessIff | internal/proxy/server.go:164-258 | a client is told of success iff its route's own tunnel lets the request through, or the direct dial of a direct host succeeds, in time, with room, and while the server is not closing |
| Relay.ServeConsumes | internal/proxy/server.go:149-165 | the request read out of the buffered reader is a prefix of the buffer that decodes the same on its own |
| Relay.InvAlways | internal/proxy/server.go:164-183 | in every reachable state each direction's source is its consumed prefix, then the written, then the held, then the unread bytes |
| Relay.RelayConserves | internal/proxy/server.go:269-287 | bytes written upstream are a prefix of what follows exactly one request, early data included, and relayed bytes written to the client are a prefix of the upstream's; a clean end has delivered everything; half-closes follow the end of their direction; relay returns after both |
| Relay.ClientIsSent | internal/proxy/server.go:164-183 | the client's stream is the acceptance, what went out of the success reply (nothing past the deadline), then the relayed bytes; a completed relay has sent the whole reply and payload iff the reply went out whole |
| Relay.RelayWithoutReply | internal/proxy/server.go:180-182 | for every request and upstream data there is a run in which the data follows the acceptance directly |
| Relay.RequestIgnoresFragmentation | internal/proxy/server.go:147-165 | what is dialled does not depend on chunking or on what follows the request |
| Relay.WholeRequestIsRead | internal/proxy/server.go:147-165 | however the request is cut up, once all of it has been sent the server can go on by itself until it has it or the deadline passes |
| Relay.RelayWaitsOnlyForPeers | internal/proxy/server.go:273-287 | a direction stands still iff it is over, its sender is open with nothing undelivered, or its receiver has stopped reading; relay can return iff both are over |
| Relay.RelayStepsUseWork | internal/proxy/server.go:273-287 | between two actions of the peers the relay takes finitely many steps |
| Relay.CopyAll | internal/proxy/server.go:276-285 | the copy loop delivers the whole stream in order, or as much as the destination takes |
| Lifecycle.InvAlways | internal/proxy/server.go:79-143 | in every interleaving each connection has one responsible goroutine, the counter equals the live goroutines, and after closing nothing tracked is open |
| Lifecycle.ShutdownLeavesNothing | internal/proxy/server.go:79-101 | when Shutdown returns nil all goroutines have ended, nothing is tracked, and every accepted or dialled connection is closed |
| Lifecycle.WaitGroupIsSound | internal/proxy/server.go:103-126 | the counter stands for the live goroutines; it is never raised from zero nor lowered below it |
| Lifecycle.NothingJoinsAfterShutdown | internal/proxy/server.go:128-136 | after Shutdown's locked section nothing joins conns and nothing in it is open |
| Lifecycle.ShutdownIsNeverStuck | internal/proxy/server.go:75-101 | until Shutdown can return nil some goroutine can move without help from any peer |
| Lifecycle.ShutdownTerminates | internal/proxy/server.go:75-101 | after that section every schedule is bounded, so Shutdown returns nil unless its context expires |
| Lifecycle.AcceptLoopGoesOn | internal/proxy/server.go:103-126 | until Shutdown the accept loop is at Accept, or at most three steps of its own, always possible, from it, the last of which starts the handler of the connection it accepted, open and tracked |
| Lifecycle.RequestsAreRelayed | internal/proxy/server.go:164-183 | until Shutdown a handler whose client sends its request and whose dial succeeds, directly or through a tunnel, relays, with both connections tracked and open |
| Lifecycle.Server.Track | internal/proxy/server.go:128-136 | the locked section of the state machine, refused once closed |
| Lifecycle.Server.Untrack | internal/proxy/server.go:138-143 | forgets, then closes |
| Lifecycle.Server.BeginShutdown | internal/proxy/server.go:80-88 | the loop closes exactly the tracked connections and the listener |
| Text.ColonSplits | internal/config/config.go:267 | `a:b` with no colon in b separates again, whatever a contains |
| Text.ItoaInjective | internal/config/config.go:267 | decimal rendering is injective, signs included |
| Text.ItoaIsDecimal | internal/config/config.go:267 | the rendering is the number in decimal, without leading zeros |
| Routing.MatchersAgree | internal/proxy/table.go:112-116 | on a host without slashes path.Match and shExpMatch agree on every pattern without brackets and backslashes |
| Routing.PathMatchIsGlob | internal/proxy/table.go:112-116 | the matcher accepts a host iff it can be cut into one part per pattern character: no slash under a wildcard, one character under `?`, every literal itself |
| Routing.MaskIsPrefix | internal/pac/generate.go:63-69 | for every prefix length the masked comparison of isInNet is the prefix test of the table |
| Routing.PrefixesAreMembership | internal/proxy/table.go:65-69 | the table's masked prefixes match exactly the addresses inside the configured subnets, unparsable ones skipped |
| Routing.BranchesAreMembership | internal/pac/generate.go:49-55 | so do the generated isInNet branches |
| Routing.TableServes | internal/proxy/table.go:89-126 | for every host the table decides by the first route with a SOCKS listener that has a pattern, both in small letters and without one trailing dot, or as an IPv4 literal (also mapped) a subnet for it; direct if that route's state is known to be so, through its own listener otherwise; by no route if there is none |
| Routing.PacServesFirst | internal/pac/generate.go:28-61 | the generated program names the first such route by the host as spelled, or the IPv4 address it is or is looked up as, if that route is known to need its tunnel, and says DIRECT otherwise |
| Routing.CompileAgrees | internal/pac/generate.go:28-61 | the compiled program passes a branch iff there is a first match of the host as spelled, at the browser's address, and then returns that route's value |
| Routing.PacAgreesWithTable | internal/pac/generate.go:28-61 | for all routes with patterns of the fragment, all states and all slash-free hosts, the generated program picks the table's tunnel or DIRECT iff the two first matches lead to the same place; when both match the same route, iff its state is recorded |
| Routing.FrontDoorAgrees | internal/pac/generate.go:40-44 | with a front address, PAC followed by Decide at the listener reaches the table's upstream iff the program names the proxy or the table says direct; when both match the same route, iff its state is recorded |
| Routing.DecidesBySameRoute | internal/proxy/table.go:103-126 | with lower-case patterns both match the same route on every normalised host that the browser does not resolve into a subnet of a route with a SOCKS listener |
| Routing.SpellingMatters | internal/proxy/table.go:109 | hosts on which case and a trailing dot make the two match differently |
| Routing.ResolvingMatters | internal/proxy/table.go:103-107 | a name the browser resolves into a subnet is matched by the program and not by the table |
| Routing.DirectOnlyWhenToldSo | internal/proxy/table.go:86-101 | after any history of updates a routed host is direct iff the newest update maps its route to false |
| Routing.Table.constructor | internal/proxy/table.go:52-73 | the table holds one entry per SOCKS route, in order, lowered and masked |
| Routing.Table.Update | internal/proxy/table.go:76-84 | the state is replaced by a copy of the whole map |
| Routing.Table.Match | internal/proxy/table.go:108-126 | the nested loops find the first matching entry |
| Routing.Table.Decide | internal/proxy/table.go:89-101 | the decision the agreement theorems are about |
| Routing.Generate | internal/pac/generate.go:28-61 | the nested loops emit the program the agreement theorems are about |
| Daemon.EvaluateIsFirstMatch | internal/netstate/evaluate.go:14-37 | direct iff some profile states a criterion and all it states hold, under the first such profile's name |
| Daemon.IncrementalIsFull | internal/daemon/daemon.go:201-230 | over any history of queries, failures included, table, supervisors and PAC equal a full regeneration from the newest snapshot |
| Daemon.ServedByProfiles | internal/daemon/daemon.go:201-230 | by the newest snapshot alone: a supervisor is told to run iff no profile of its route is met or the tunnel is kept, and the table calls a route direct iff a profile of it is met |
| Daemon.NothingServedBefore | internal/daemon/daemon.go:202-206 | while every query has failed the table is empty, no PAC is served and no tunnel is wanted |
| Daemon.HostGoesHomeOrThrough | internal/daemon/daemon.go:201-230 | so a host goes directly if the first route that serves it is at home, through that route's own listener if not, and directly if no route serves it |
| Daemon.BrowserGoesHomeOrThrough | internal/daemon/daemon.go:227-229 | and the served PAC sends the browser to DIRECT or to the proxy by the same test |
| Daemon.ChangedIff | internal/daemon/daemon.go:208-219 | with unique names `changed` says exactly whether some route's decision was not remembered so |
| Daemon.ScanMerges | internal/daemon/daemon.go:209-222 | the remembered decisions become the new ones, and `changed` stays false only if they already were; route names need not be unique |
| Daemon.PacIsServedIff | internal/daemon/daemon.go:227-229 | the served PAC is the full regeneration iff there is a route |
| Daemon.ServedPacFollowsServedTable | internal/daemon/daemon.go:201-230 | after any history with a success, the served PAC followed through the front door sends each host where the table sends it when both match the same route; in general iff the program names the proxy or the table says direct |
| Daemon.Loop.ApplyState | internal/daemon/daemon.go:202-230 | the closure with its captured variables does one step of that history |
| Wakeups.NoLostWakeup | internal/daemon/daemon.go:192-198 | every trigger leaves a token, or pending with the timer running, until an applyState that starts after it |
| Wakeups.BetweenReceives | internal/daemon/daemon.go:264-272 | between two consecutive receives applyState runs at most once, never if they are less than the interval apart, and in a loop that is not busy elsewhere, the tie aside, iff they are further apart |
| Wakeups.TieGoesEitherWay | internal/daemon/daemon.go:239-272 | exactly the interval apart, there is a run with and a run without applyState |
| Wakeups.TriggersAreServed | internal/daemon/daemon.go:233-278 | once triggers stop, at most three steps of the loop remain; when none is left applyState has run, and in a loop that is not busy elsewhere it has run once more than the interval has passed |
| Wakeups.TriggersCanPostpone | internal/daemon/daemon.go:264-266 | n triggers received at once and a fixed gap apart leave applyState out, and an attentive loop allows that iff the gap is at most the interval |
| Reload.RunsLastKnownGood | internal/daemon/daemon.go:68-101 | only the newest runOnce can be running, on the last configuration that loaded; none is running once Run has returned |
| Reload.RestartsOnlyAfterReturn | internal/daemon/daemon.go:88-99 | a runOnce starts only after every earlier one has returned; a failed load changes nothing |
| Reload.CancellationEndsRun | internal/daemon/daemon.go:76-79 | in every run nothing is started after the context is seen done; one of at most two own steps is possible until Run has returned |
| Reload.StartupErrorEndsRun | internal/daemon/daemon.go:81-86 | a runOnce that returns by itself ends Run at once and for good |
| Reload.ReloadReachesItsConfig | internal/daemon/daemon.go:88-99 | a reload that loads needs at most two own steps, always possible, to a live runOnce on its configuration |
| Reload.InterruptEndsRun | internal/daemon/daemon.go:65-101 | after a signal, unless further reloads are asked for, Run returns within five own steps, whatever reload was under way |
| Supervisor.GenerationsAreSound | internal/tunnel/supervisor.go:69-148 | desired iff cancel is set iff the newest loop is uncancelled; all older loops are cancelled; an uncancelled loop never returns |
| Supervisor.DoneClosesOnce | internal/tunnel/supervisor.go:120-121 | each done channel is closed once if its loop has returned and never otherwise |
| Supervisor.StopIsCompleteIff | internal/tunnel/supervisor.go:109-118 | Stop leaves no run loop behind under every schedule iff all older generations had already returned |
| Supervisor.StopCanLeaveAnOlderLoop | internal/tunnel/supervisor.go:92-118 | a run in which Stop returns while an older ssh is still running |
| Supervisor.CancelledLoopsEnd | internal/tunnel/supervisor.go:124-147 | a cancelled loop is at most two of its own steps from closing its channel |
| Supervisor.WantedLoopsRun | internal/tunnel/supervisor.go:124-147 | in every history a loop still wanted that is not running ssh has a step, and every step it can take brings it nearer to running it, which is at most three away |
| Supervisor.BacksOffOncePerExit | internal/tunnel/supervisor.go:124-147 | in every history tests of the context, exits of ssh, backoffs and wakeups of a loop follow each other round |
| Supervisor.OneGenerationPerRise | internal/tunnel/supervisor.go:69-118 | there is one generation for each change from not wanted to wanted, and none for an Ensure that asks for what is wanted already |
| Supervisor.DelayFollowsStreak | internal/tunnel/supervisor.go:123-146 | after k consecutive short-lived exits the delay lies between half and all of min(max, base·2^min(k,20)) when base·2^20 fits; always positive and capped |
| Supervisor.Supervisor.Ensure | internal/tunnel/supervisor.go:69-81 | starts or cancels a generation only on a change of mind |
| Supervisor.Supervisor.BeginStop | internal/tunnel/supervisor.go:109-114 | cancels and captures the newest done channel |
| Backoff.DelayIsBounded | internal/tunnel/backoff.go:12-32 | for all int64 inputs and attempts 0 < delay ≤ max, at least half the raw delay, and the generator's bound is valid |
| Backoff.RawIsExactIff | internal/tunnel/backoff.go:19-26 | the raw delay is the capped exponential iff the product fits, or wraps to a value the guard replaces by the cap |
| Backoff.GuardMissesAWrap | internal/tunnel/backoff.go:23-26 | an input whose product wraps to a millisecond where an hour was meant |
| Backoff.DelayIsExponential | internal/tunnel/backoff.go:12-32 | when base·2^20 fits every attempt is within its exponential envelope, which never decreases |
| Backoff.JitterCoversTheHalf | internal/tunnel/backoff.go:27-31 | every delay from half the raw one to twice that half comes from exactly one draw, and no other |
| Cooldown.KeysAreDistinct | internal/daemon/daemon.go:316 | distinct (route, category) pairs never share a key, even when names contain colons |
| Cooldown.NotifiesAfterCooldown | internal/state/cooldown.go:10-24 | a failure notifies iff the cooldown has passed since its own key's last notification or loaded record, or that carries the zero time |
| Cooldown.NotificationsAreSpaced | internal/state/cooldown.go:10-24 | any two notifications of one route and category are at least the cooldown apart, even if the clock steps back |
| Cooldown.WindowIsBounded | internal/state/cooldown.go:10-24 | a window of length w holds at most w / cooldown + 1 of them |
| Cooldown.SuppressedIsRecent | internal/state/cooldown.go:5-16 | only the same route's same category, less than the cooldown ago, suppresses a failure |
| Cooldown.Store.HandleError | internal/daemon/daemon.go:311-325 | one step of the failure stream |
| Configuration.Validate | internal/config/config.go:247-295 | accepts iff names are present and distinct, jump hosts set, every enabled listener loopback, the proxy port 1 to 65535, and the enabled listeners pairwise distinct; an error names a real fault |
| Configuration.ValidateRoutes | internal/config/config.go:250-273 | the route loop, with the addresses it claims |
| Configuration.ClaimAddr | internal/config/config.go:299-306 | succeeds iff the listener is none of those claimed so far, and then exactly these and it are claimed; an error names the owner it clashes with |
| Configuration.RenderInjective | internal/config/config.go:267 | one `bind:port` rendering means one listener, even when bind contains colons |
| Configuration.UpstreamsAreDistinct | internal/config/config.go:247-295 | in a valid configuration no two routes have the same upstream address as text, and none has the front door's |
| Terse.SplitUndoesJoin | internal/netstate/query.go:100-122 | escaping, joining and splitting returns every non-empty list of strings |
| Terse.FieldCount | internal/netstate/query.go:102-122 | for any line, one field more than colons preceded by an even run of backslashes |
| Terse.FieldsHoldWhatIsKept | internal/netstate/query.go:102-122 | for any line, each field holds the characters of its range that are escaped or neither escape nor separate |
| Terse.SplitTerse | internal/netstate/query.go:102-122 | the loop computes that split |
| Update.ParseChecksums | internal/update/update.go:206-217 | a name's checksum is the one on the last well-formed line that lists it |
| Update.ReplaceFile | internal/update/update.go:253-277 | succeeds iff no operation fails; with any operation failing and the process dying at any moment, the path holds its old content or all of the data, other files are kept, and a reported failure leaves the old content |
| Update.Apply | internal/update/update.go:145-179 | installs iff there is a verified executable and no file operation fails, and without one touches nothing; at every moment the executable is the old one or the extracted file of an archive whose hash matched its SHA256SUMS entry |

## Left out

- Sockets and DNS: a connection is a byte stream that may end or stop taking bytes. Timeouts are an end breaking off at any step (SocksNet), a failing read or write (Relay), a number of bytes a connection takes, or the time a dial ends (FrontDoor).
- FrontDoor.Door: the connections between doors take every request, so that the far end is asked at all; one hop whose request cannot be sent is covered by FrontDoor.ConnectResult.
- HTTP CONNECT parsing and status text, and the first-byte test that tells it from SOCKS5: it feeds the same dial, track and relay steps.
- Start as concurrent steps: the daemon calls Shutdown only after Start has returned, so runs begin with the accept loop counted and running.
- The "; DIRECT" fallback of a PAC value: PacVia and FrontVia follow the first choice.
- Character classes and escapes in patterns, non-ASCII case folding, IPv6 subnets and zones in routing, and text forms of addresses and CIDRs.
- The JavaScript text of the PAC: quoting and comments add no meaning to the program's syntax tree.
- ssh, nmcli and ip as processes: a tunnel is a program that runs for a while and exits; a query is a snapshot or a failure.
- Overflow of the attempt counter after 2^63 exits.
- applyRouteDefaults, YAML and JSON decoding, file polling, logging, commands and their output: no property beyond reading their bodies.
- "Every config edit is eventually loaded" is not a theorem: the watcher takes its first timestamp after the initial load.
- IsNewer and parseVersion: a lexicographic comparison of three numbers.
- Configuration.Validate: listeners are compared as text, as the code does, so two spellings of one IPv6 address count as distinct.
- Update.ReplaceFile: the code does not sync files to disk, so the claim is about the process dying, not about power loss.
- Update.Apply: removal of the temporary file may itself fail, so a stray temporary file can remain; the code ignores that error too.
