# kntrl control plane, modelled in Dafny

kntrl watches outbound IPv4 connections from a CI runner with an eBPF
program and keeps an allow map in the kernel. This project models the
user-space side that drives it. Two near-identical entry points exist:
`Run` in `internal/handlers/tracer/tracer.go` and `Run` in `kntrl/kntrl.go`.
Both are modelled on one engine. Also modelled is the configuration
parser in `pkg/parser/flag.go`.

The modules follow the program's structure:

- `Common`: `Option`, `Result`, the fixed-width unsigned integers, and `Reverse`.
- `LittleEndian`: little-endian byte strings and `binary.LittleEndian.Uint32`.
- `EventCodec`: the packed 36-byte `IP4Event` record and `binary.Read` on it.
- `Text`: the Go string functions the core uses.
  - `strings.Split` with a one-character separator, and its inverse `Join`.
  - `strings.TrimSpace`, `strings.Fields` and `strings.Contains`.
- `NetIP`: `net.ParseIP` and `To4`.
  - IPv4 dotted quads are parsed concretely, with the strict rules: four fields, decimal, at most 255, no leading zero.
  - The result is the 16-byte IPv4-in-IPv6 form.
  - The IPv6 text parser is a parameter `v6`, constrained by `IPv6Parser`.
- `FlagParser`: `parseAllowedIPAddr`, `parseAllowedHosts`, the nameserver-line classification of `getDNSServers`, and `ToDataJson`.
- `ModeGate`: the mode flag check, the mode `switch`, and the write at key 0 of the mode map.
- `Attach`: how each program kind is attached, and the attach loop.
  - The loop stops at the first failure.
  - Each success defers a release (a Go `defer`).
  - Kernel answers are an oracle.
- `AllowList`: the pure rules for the allow map.
  - Seeding.
  - The per-event rule: a destination is added when a reverse-resolved name *contains* `.github.com` or `.kondukto.io`.
  - The event loop as a function (`Consume`) over a sequence of read outcomes.
- `Engine`: class `Engine`, which holds the state both `Run`s build up step by step.
  - Its fields:
    - `log`: kernel-side operations, in order.
    - `deferred`: the defer stack.
    - `released`: releases that ran, in order.
    - `modeMap` and `allow`: the two maps.
    - `event`: the reused event variable.
    - `outcome`: running, returned, exited through `Fatalf`, or panicked.
  - Its methods are the loops of the source. Each is proved against the functions above.
  - `RunTracer` and `RunKntrl` are the two entry points. They differ as follows:
    - tracer.go checks a mode flag string and writes the code its `switch` picks; kntrl.go writes the caller's `uint32` at key 0 unchecked;
    - tracer.go returns an error when the hosts flag cannot be parsed (`HostsUnparsable`); kntrl.go has no such step;
    - tracer.go loads through one `ebpfClient.Load` (`ClientLoad`); kntrl.go loads the spec, then the collection;
    - tracer.go exits through `Fatalf` when the reporter cannot be built (`ReporterFailed`); kntrl.go has no such check;
    - the order of setup: kntrl.go relaxes the memory lock first, right after the root check (kntrl.go:47-50); tracer.go relaxes it only after loading, opening the readers and building the reporter (tracer.go:112-120);
    - where attaching comes: kntrl.go attaches right after loading, before the mode write (kntrl.go:57-116); tracer.go attaches last, after memlock (tracer.go:123-179);
    - where the collection's release is deferred;
    - the bound of the suffix scan: the length of the suffix list in kntrl.go, the byte length of the hosts flag in tracer.go.

Go semantics the model keeps explicit:

- `logger.Log.Fatalf` ends the process without running deferred calls (`Exited`).
- A `return` runs them last-in first-out (`released == Reverse(deferred)`).
- A panic unwinds and also runs them (`Panicked`).
- `binary.LittleEndian.Uint32` panics on an address shorter than four bytes.
- Indexing past a slice's end panics.

The model follows the code wherever the code departs from the documented behaviour:

- Sample length:
  - Documented: a record whose length differs from 36 bytes is skipped.
  - Code: `binary.Read` accepts any sample of at least 36 bytes and ignores the rest (`EventCodec.DecodeIgnoresTail`).
- Memlock order in tracer.go:
  - Documented: the memory-lock relaxation comes before the first load.
  - Code: tracer.go relaxes it after `ebpfClient.Load`, after opening the readers and after building the reporter, just before attaching (tracer.go:112-120, `Engine.TracerPlan`).
- Report:
  - Documented: each event is appended to the report.
  - Code: neither loop appends anything to it.
- Release on exit:
  - Documented: resources are released on every exit path.
  - Code, `Fatalf` paths: they release nothing.
  - Code, cgroup attach: a cgroup directory opened for a program whose link then fails is not closed by `Run` (`Attach.CgroupDirNotReleasedOnLinkFailure`).
- Collection release in kntrl.go: it is deferred before anything is loaded, so it also runs on the not-root and memlock error paths (`Engine.Engine.RunKntrl`).

## Model

| member | source | states |
|---|---|---|
| LittleEndian.Uint32LE | internal/handlers/tracer/tracer.go:89 | the key of an address is b0 + b1·2^8 + b2·2^16 + b3·2^24, the little-endian value of its first four bytes |
| LittleEndian.Uint32LERoundTrip | kntrl/kntrl.go:126 | converting the 4-byte little-endian encoding of any uint32 gives that value back |
| LittleEndian.FromToLE | kntrl/kntrl.go:173 | decoding the n-byte little-endian encoding of any x < 256^n gives x |
| LittleEndian.ToFromLE | kntrl/kntrl.go:173 | re-encoding the little-endian value of any byte string gives the same bytes |
| LittleEndian.Pow256Widths | kntrl/kntrl.go:243-257 | 2-, 4- and 8-byte fields span exactly the uint16, uint32 and uint64 ranges |
| EventCodec.Encode | kntrl/kntrl.go:243-257 | the record is 36 bytes, packed with no padding: TsUs at 0..8, Pid 8..12, Af 12..14, Task 14..30, Daddr 30..34, Dport 34..36, each little-endian |
| EventCodec.Decode | kntrl/kntrl.go:173-176 | decoding succeeds iff the sample has at least 36 bytes; an empty sample gives EOF, 1 to 35 bytes give UnexpectedEOF |
| EventCodec.DecodeEncode | kntrl/kntrl.go:243-257 | encoding an event then decoding it gives back the same event |
| EventCodec.EncodeDecode | kntrl/kntrl.go:173 | a sample of at least 36 bytes decodes to the event whose encoding is its first 36 bytes |
| EventCodec.DecodeIgnoresTail | kntrl/kntrl.go:173 | bytes after the first 36 do not change the decoded event |
| Text.Split | pkg/parser/flag.go:32 | splitting gives one more piece than there are separators, and no piece holds the separator |
| Text.JoinSplit | pkg/parser/flag.go:32 | joining the pieces with the separator gives back the input |
| Text.SplitJoin | pkg/parser/flag.go:51 | splitting a join of separator-free pieces gives back the pieces |
| Text.SplitPiece | pkg/parser/flag.go:51 | a separator-free prefix only extends the first piece |
| Text.TrimLeftSpec | pkg/parser/flag.go:52 | the result is a suffix of the input; everything removed is white space, and the result does not start with white space |
| Text.TrimRightSpec | pkg/parser/flag.go:52 | the result is a prefix of the input; everything removed is white space, and the result does not end with white space |
| Text.TrimSpace | pkg/parser/flag.go:52 | the result is a slice of the input with only white space on either side, and it neither starts nor ends with white space |
| Text.TrimSpaceIdempotent | pkg/parser/flag.go:52 | trimming twice gives what trimming once gives |
| Text.Word | pkg/parser/flag.go:73 | the first field is the longest white-space-free prefix |
| Text.Fields | pkg/parser/flag.go:73 | every field is non-empty and free of white space; there are none iff the line is all white space; otherwise the first is the word after the leading white space |
| Text.FieldsRest | pkg/parser/flag.go:73 | the fields after the first are the fields of what follows the first word |
| Text.ByteLen | internal/handlers/tracer/tracer.go:218 | Go's `len` of a string counts UTF-8 bytes: at least the number of characters, at most four times it, and equal to it iff every character is ASCII |
| Text.FieldsUnwords | pkg/parser/flag.go:73 | the fields of words joined by single blanks are those words |
| Text.WordOf | pkg/parser/flag.go:73 | a white-space-free word followed by a blank or the end is the first field |
| Text.Contains | kntrl/kntrl.go:186 | true iff the substring occurs at some position of the string |
| Text.ShortNeverContains | kntrl/kntrl.go:186 | a string shorter than the substring does not contain it |
| NetIP.To4 | pkg/parser/flag.go:36 | `To4` yields four bytes or nil |
| NetIP.ParseIPShape | pkg/parser/flag.go:33 | an accepted literal yields a 16-byte address, and an accepted literal holds no white space |
| NetIP.SpacedLiteralRejected | pkg/parser/flag.go:32-34 | a literal holding white space is rejected |
| NetIP.IPv6LiteralHasNoTo4 | pkg/parser/flag.go:36 | an IPv6 literal that is not IPv4-mapped is accepted, but its `To4` is nil |
| NetIP.To4OfMapped | pkg/parser/flag.go:36 | `To4` of an IPv4-in-IPv6 address is its last four bytes |
| NetIP.Decimal | pkg/parser/flag.go:13-15 | a decimal spelling is non-empty and all digits |
| NetIP.DecimalValue | pkg/parser/flag.go:13-15 | the digits of a decimal spelling denote the number, with no leading zero |
| NetIP.ParseOctet | pkg/parser/flag.go:33 | an accepted dotted-quad field is non-empty, all digits and at most three long |
| NetIP.ParseOctetCanonical | pkg/parser/flag.go:33 | an accepted dotted-quad field is exactly the shortest decimal spelling of the byte it yields, so no leading zero and at most 255 |
| NetIP.ParseIPv4 | pkg/parser/flag.go:33 | an accepted dotted quad is 7 to 15 characters long and gives a 16-byte IPv4-in-IPv6 address |
| NetIP.ParseIPv4Canonical | pkg/parser/flag.go:33 | an accepted dotted quad is the canonical spelling of its last four bytes: four fields, decimal, at most 255, no leading zero (the converse is `NetIP.ParseDottedQuad`) |
| NetIP.ParseIP | pkg/parser/flag.go:33 | a literal whose first special character is ':' gets the IPv6 parser's answer; any other is accepted only if that character is '.', and then as a 16-byte IPv4-in-IPv6 address |
| NetIP.ParseOctetDecimal | pkg/parser/flag.go:13-15 | the decimal spelling of any byte parses back to it |
| NetIP.ParseDottedQuad | pkg/parser/flag.go:41-43 | the dotted-quad spelling of any four bytes parses to their IPv4-in-IPv6 address |
| FlagParser.InfraLiterals | pkg/parser/flag.go:40-44 | the three constants parse to 127.0.0.1, 169.254.169.254 and 168.63.129.16, in that order |
| FlagParser.LoopbackLiteral | pkg/parser/flag.go:13 | "127.0.0.1" parses to 127.0.0.1 |
| FlagParser.LinkLocalLiteral | pkg/parser/flag.go:14 | "169.254.169.254" parses to 169.254.169.254 |
| FlagParser.AzureMetaLiteral | pkg/parser/flag.go:15 | "168.63.129.16" parses to 168.63.129.16 |
| FlagParser.ParseAllowedIPAddr | pkg/parser/flag.go:31-47 | the loop returns the `To4` forms of the comma-separated pieces that parse, in input order, followed by the three infrastructure addresses |
| FlagParser.AcceptedIPsAppend | pkg/parser/flag.go:32-38 | filtering the pieces of a concatenation filters each part |
| FlagParser.AllowedIPAddrLength | pkg/parser/flag.go:32-38 | there is one entry per accepted piece |
| FlagParser.AllowedIPAddrShape | pkg/parser/flag.go:40-44 | the result has the accepted-piece count plus 3 entries and ends with the infrastructure addresses; every entry is four bytes or nil |
| FlagParser.AcceptedIPsWidth | pkg/parser/flag.go:36 | every kept entry is four bytes or nil |
| FlagParser.AcceptedIPsMembers | pkg/parser/flag.go:32-37 | an address is kept iff some piece parses to it (both directions) |
| FlagParser.AcceptedIPsSource | pkg/parser/flag.go:32-37 | every kept address comes from a piece that parses to it |
| FlagParser.AcceptedIPsKeeps | pkg/parser/flag.go:32-37 | every piece that parses contributes its `To4` form |
| FlagParser.EndsWithInfra | pkg/parser/flag.go:21 | whatever precedes the parsed IP flag, the list ends with the three infrastructure addresses |
| FlagParser.SpacedPieceDropped | pkg/parser/flag.go:32-34 | pieces are not trimmed, so a piece with white space at either end is dropped |
| FlagParser.TrimAll | pkg/parser/flag.go:51-53 | each host is its piece trimmed, in order, one per piece |
| FlagParser.ParseAllowedHosts | pkg/parser/flag.go:49-56 | the loop returns every comma-separated piece trimmed, in order |
| FlagParser.AllowedHostsShape | pkg/parser/flag.go:49-56 | there is one host more than there are commas, and each host is comma-free and trimmed |
| FlagParser.EmptyHostsFlag | pkg/parser/flag.go:51 | an empty host flag yields one empty host |
| FlagParser.TrimmedPiece | pkg/parser/flag.go:52 | a trimmed comma-free piece is comma-free and has no white space at either end |
| FlagParser.GetDNSServers | pkg/parser/flag.go:58-89 | both lists are nil when resolv.conf cannot be opened or the scan fails; otherwise they hold the nameserver hosts and addresses in file order |
| FlagParser.ClassifyLine | pkg/parser/flag.go:72-81 | a line contributes iff it has at least two fields and the first is "nameserver"; a host is that second field, non-empty, space-free and not an IP literal; an address is what `ParseIP` gives for the second field |
| FlagParser.ClassifyLineContributes | pkg/parser/flag.go:73-75 | a line contributes iff it has at least two fields and the first is "nameserver"; leading blanks do not matter |
| FlagParser.NameserverAddressLine | pkg/parser/flag.go:75-80 | "nameserver a.b.c.d …" contributes the address in its 16-byte form |
| FlagParser.NameserverHostLine | pkg/parser/flag.go:76-77 | a nameserver value that does not parse is kept as a host name |
| FlagParser.DNSServersCount | pkg/parser/flag.go:71-82 | each nameserver line contributes exactly one entry, to one of the two lists |
| FlagParser.ToDataJson | pkg/parser/flag.go:18-29 | hosts are the DNS hosts followed by the parsed hosts; addresses are the DNS addresses followed by the parsed addresses, ending with the infrastructure addresses; both flags are copied |
| ModeGate.CheckMode | internal/handlers/tracer/tracer.go:36-43 | the flag passes iff it is non-empty and one of the two mode names; an empty flag gives "required", any other failure "invalid" with the flag |
| ModeGate.SelectMode | internal/handlers/tracer/tracer.go:66-83 | the trace case is taken iff the flag is the trace name, the monitor case iff it is the monitor name and not the trace name, and the `default` branch only for a flag the guards reject |
| ModeGate.SwitchAfterCheck | internal/handlers/tracer/tracer.go:66-83 | after the check, the `default` branch is unreachable, and the case taken is the mode the flag names |
| ModeGate.WriteMode | internal/handlers/tracer/tracer.go:70 | the write sets key 0 to the code and leaves every other key unchanged |
| Attach.HookFor | internal/handlers/tracer/tracer.go:131-178 | every kind except the unrecognised ones has a hook |
| Attach.AttachStep | internal/handlers/tracer/tracer.go:131-178 | one pass of the `switch`: a pass makes no call iff the kind is unrecognised; a failing pass defers nothing; at most two releases are deferred |
| Attach.AttachStepSpec | internal/handlers/tracer/tracer.go:131-178 | a pass succeeds iff the kind is unrecognised or (the cgroup directory opens, for a cgroup program, and) the link succeeds; the cgroup directory is opened first iff the program is a cgroup program; a successful link is the last call and its release the first defer |
| Attach.AttachUpTo | internal/handlers/tracer/tracer.go:123-179 | the loop defers at most two releases per program, and an error names a program the loop has reached |
| Attach.CallsInRange | internal/handlers/tracer/tracer.go:123-179 | the loop's calls and deferred releases all concern programs it has reached |
| Attach.AttachSucceedsIff | internal/handlers/tracer/tracer.go:123-179 | the loop succeeds iff every program's attach succeeds (both directions) |
| Attach.AttachFailsAtFirst | internal/handlers/tracer/tracer.go:135-171 | the error returned is the first failing program's, and no later program is touched |
| Attach.AttachSuccessReleases | internal/handlers/tracer/tracer.go:139-177 | after success, every recognised program has a deferred link release, every cgroup program also a directory release, and unrecognised programs have no calls |
| Attach.CgroupDirNotReleasedOnLinkFailure | internal/handlers/tracer/tracer.go:161-174 | when a cgroup link fails, its opened directory has no deferred release |
| Engine.AttachStable | kntrl/kntrl.go:70-73 | once the loop has returned an error, later programs change nothing |
| AllowList.SeedAll | internal/handlers/tracer/tracer.go:87-94 | the seeding loop panics iff some address is shorter than four bytes, and keeps every key either way |
| AllowList.PutAll | internal/handlers/tracer/tracer.go:87-94 | the keys of the result are the old keys plus the seeded ones |
| AllowList.SeedClosedForm | internal/handlers/tracer/tracer.go:87-94 | seeding panics iff some address is shorter than 4 bytes; otherwise it maps every seeded key to the value, whatever the order or repetition |
| AllowList.SeedMonotone | kntrl/kntrl.go:123-131 | seeding, panicking or not, keeps every entry and sets only the given value |
| AllowList.SeedContainsAll | internal/handlers/tracer/tracer.go:87-94 | after seeding, every address's key holds the value and nothing is lost |
| AllowList.SeedIdempotent | internal/handlers/tracer/tracer.go:87-94 | seeding the same addresses twice gives what seeding once gives |
| AllowList.Resolved | kntrl/kntrl.go:179-182 | a failed lookup has "." appended to its names |
| AllowList.Tested | internal/handlers/tracer/tracer.go:218-220 | the suffixes a scan reaches are a prefix of the two-element list |
| AllowList.DotMatchesNothing | kntrl/kntrl.go:179-193 | "." contains neither string |
| AllowList.FailedLookupNeverMatches | kntrl/kntrl.go:179-193 | a failed lookup yields ["."], which matches nothing under any scan bound |
| AllowList.ContainmentNotSuffix | kntrl/kntrl.go:184-186 | the rule is containment: a name with ".github.com" in its middle matches |
| AllowList.ShortUndottedNameDoesNotMatch | kntrl/kntrl.go:184-186 | a name no longer than ".github.com" and not starting with "." matches neither string |
| AllowList.BareDomainsDoNotMatch | kntrl/kntrl.go:184-186 | "github.com" and "kondukto.io" themselves do not match |
| AllowList.EventStep | kntrl/kntrl.go:165-202 | a read error or a short sample changes nothing; a decoded sample becomes the event, and at most its destination's key is added; every key stays; the pass panics only when the bound exceeds the suffix list |
| AllowList.Consume | kntrl/kntrl.go:164-205 | the loop waits for more input only if no `Closed` was read, ends normally only after one, panics only when the bound exceeds the suffix list, and keeps every key |
| AllowList.ConsumeMonotone | kntrl/kntrl.go:164-203 | the event loop keeps every key, sets only the marker 1, and keeps an all-1 map all-1 |
| AllowList.ClosedEndsLoop | kntrl/kntrl.go:165-169 | nothing after the first closed read is consumed, and the loop has ended there |
| AllowList.SkippedReads | kntrl/kntrl.go:165-176 | a non-closing read error, or a sample shorter than a record, changes nothing and does not end the loop |
| AllowList.DuplicateReadIdempotent | kntrl/kntrl.go:188 | processing the same read twice gives what processing it once gives |
| AllowList.FixedBoundRule | kntrl/kntrl.go:184-194 | with the bound 2 no panic occurs; the destination is present afterwards iff it was before or some resolved name contains one of the two strings |
| AllowList.TracerBoundPanics | internal/handlers/tracer/tracer.go:218-220 | with the hosts flag "a,b" (bound 3 bytes), any resolved name makes the scan index past the list |
| AllowList.TracerBoundCountsBytes | internal/handlers/tracer/tracer.go:218-220 | the two-character flag "éé" has byte length 4, and with it any resolved name makes the scan index past the list |
| AllowList.TracerBoundSkipsMatch | internal/handlers/tracer/tracer.go:218-220 | with an empty hosts flag (bound 0), "api.github.com." matches the rule but adds nothing |
| Engine.NoPanicWithinBound | kntrl/kntrl.go:184-186 | a bound no larger than the suffix list never lets the event loop panic |
| Engine.LoopOutcome | kntrl/kntrl.go:164-214 | a run is still running iff its event loop is waiting for input |
| Engine.Engine.constructor | kntrl/kntrl.go:163 | a run starts with no operations, no defers, empty maps and a zero event |
| Engine.Engine.Load | kntrl/kntrl.go:216-233 | `load` builds the spec and then the collection; either failure is fatal and stops there |
| Engine.Engine.SetMode | kntrl/kntrl.go:116-120 | the mode map becomes `WriteMode` of the old one, and one put is issued |
| Engine.Engine.Seed | internal/handlers/tracer/tracer.go:87-94 | the map and panic flag are those of `SeedAll`, with one put per converted address |
| Engine.Engine.AttachOne | internal/handlers/tracer/tracer.go:131-178 | one pass of the `switch` issues the calls, defers the releases and returns the error of `AttachStep` |
| Engine.Engine.AttachAll | kntrl/kntrl.go:57-114 | the loop issues the calls, defers the releases and returns the error of `AttachUpTo` over all programs |
| Engine.Engine.ScanSuffixes | internal/handlers/tracer/tracer.go:218-228 | the nested scan panics iff the bound exceeds 2 and there is a name; the key is put iff some name contains a suffix the scan reaches |
| Engine.Engine.Finish | kntrl/kntrl.go:163-214 | after setup, the state is `Consume`'s for the reads; a run still waiting releases nothing, any other ending releases the defers in reverse; the suffix panic needs a bound above 2; keys are kept and an all-1 map stays all-1 |
| Engine.Engine.EventLoop | kntrl/kntrl.go:163-203 | the loop leaves the allow map, the event and the ending that `Consume` gives for the reads |
| Engine.Engine.RunDeferred | kntrl/kntrl.go:39 | deferred releases run last-registered first |
| Engine.Engine.Unwind | kntrl/kntrl.go:39 | leaving `Run` early by `return` or panic runs the deferred releases last-in first-out; leaving it through `logger.Log.Fatalf` (kntrl.go:136, 143, 221, 228; tracer.go:61, 99, 107, 114) runs none |
| Engine.Engine.KntrlPrepare | kntrl/kntrl.go:37-114 | the collection release is deferred first. The first failing step decides the outcome, the operations issued and the releases deferred, exactly as `KntrlPrepStop` gives them: no root returns `NotRoot` having issued nothing; a memlock failure returns after `RemoveMemlock` alone; a spec or collection failure exits through `Fatalf` right after that load step; an attach failure returns the first error with the releases of the programs attached so far deferred. With no failure, the operations are memlock, spec, collection and the attach calls, in that order |
| Engine.Engine.KntrlConfigure | kntrl/kntrl.go:116-145 | the mode write, seeding and the two readers follow in order. The setup stops iff an address is short (a panic after the puts of the addresses before it) or a reader fails (a `Fatalf`, with the first reader's close deferred if it was the second). Operations and defers are exactly those of `KntrlTailStop`. The mode map is `WriteMode`'s and the allow map `SeedAll`'s |
| Engine.Engine.KntrlSetup | kntrl/kntrl.go:37-145 | the setup stops iff a step fails. It then ends with exactly the outcome, operations and defers of `KntrlStop`, the first failing step's, with nothing after that step issued. Otherwise it issues the whole kntrl.go plan and defers the whole stack. The allow map only grows and stays all-1 |
| Engine.Engine.RunKntrl | kntrl/kntrl.go:37-214 | when a setup step fails, outcome, operations and defers are exactly `KntrlStop`'s, and the releases that run are none after `Fatalf` and the defers in reverse otherwise. Operations run in the order memlock, spec, collection, attach, mode write, seed, readers. An attach failure returns the first error after releasing what was deferred. The scan never panics. The allow map only grows, with value 1. Once setup completes, the run's state is `Consume`'s |
| Engine.Engine.TracerGuard | internal/handlers/tracer/tracer.go:35-57 | an empty or unknown mode flag, unparsable hosts, or no root returns an error, and nothing else happens |
| Engine.Engine.TracerLoad | internal/handlers/tracer/tracer.go:59-115 | a failing `ebpfClient.Load` exits through `Fatalf` before the collection's release is deferred. After a load, the write of the mode code, seeding, the readers and the reporter follow; the first failure gives exactly the outcome, operations and defers of `TracerLoadStop`. The mode map and the allow map change iff the load succeeds |
| Engine.Engine.TracerFill | internal/handlers/tracer/tracer.go:86-115 | seeding, then the two readers, then the reporter. A short address panics after the puts before it. A reader or reporter failure is fatal. Each failure gives exactly the operations and defers of `FillStop`. The allow map is `SeedAll`'s |
| Engine.Engine.OpenReaders | internal/handlers/tracer/tracer.go:96-110 | each reader is opened and its close deferred. The run stops iff a reader fails, with a `Fatalf` that names that reader; if the second fails, only the first's close is deferred |
| Engine.Engine.TracerArm | internal/handlers/tracer/tracer.go:117-179 | memlock, then attaching. A memlock failure returns `MemlockFailed` after one operation, with nothing deferred. An attach failure returns the first error with every release of the loop deferred |
| Engine.Engine.TracerBoot | internal/handlers/tracer/tracer.go:59-179 | once the guards pass, the setup stops iff loading, seeding, a reader, the reporter, memlock or attaching fails. On a stop, outcome, operations and defers are exactly those of `TracerBootStop`. Otherwise it issues the tracer.go plan after the guards and defers the whole stack |
| Engine.Engine.TracerSetup | internal/handlers/tracer/tracer.go:35-179 | the setup stops iff a guard or step fails, and then with exactly the outcome, operations and defers of `TracerStop`, the first failing step's. A guard failure touches nothing kernel-side. The mode `switch` picks the code that is written. On success the whole plan is issued. The allow map only grows and stays all-1 |
| Engine.Engine.RunTracer | internal/handlers/tracer/tracer.go:35-248 | when a setup step fails, outcome, operations and defers are exactly `TracerStop`'s, and the releases that run are none after `Fatalf` and the defers in reverse otherwise. A mode error returns that error, touching no kernel state and loading nothing. The mode written is the one the flag names. The suffix-index panic happens only when the hosts flag string is longer than 2 bytes in UTF-8. Once setup completes, the run's state is `Consume`'s with that bound |
| Engine.KntrlPrepStopShape | kntrl/kntrl.go:37-114 | kntrl.go up to attaching stops iff root, memlock, load or attach fails. It stops within its operations, always with the collection's release deferred. Not being root returns `NotRoot` with nothing issued. An attach failure carries the loop's first error |
| Engine.KntrlStopShape | kntrl/kntrl.go:37-145 | kntrl.go's setup stops iff a step fails, within the plan and the stack, never with an empty stack. It ends by returning an error, by `Fatalf`, or by the short-address panic, and that panic needs a short address |
| Engine.KntrlStopExits | kntrl/kntrl.go:47-145 | kntrl.go's setup exits through `Fatalf` iff root and memlock pass and then the load fails, or attaching and seeding pass and a reader fails |
| Engine.KntrlEndsEarly | kntrl/kntrl.go:37-145 | a run stopped in setup has released nothing after `Fatalf` and its defers in reverse after a return or panic; not being root releases only the collection |
| Engine.KntrlRunsThrough | kntrl/kntrl.go:37-145 | a completed setup means root and all of memlock, load and attach passed |
| Engine.TracerBootStopShape | internal/handlers/tracer/tracer.go:59-179 | after the guards, tracer.go stops iff a step fails, within its operations and its stack; an attach failure leaves the whole stack deferred |
| Engine.TracerStopShape | internal/handlers/tracer/tracer.go:35-179 | tracer.go's setup stops iff a guard or step fails. A failed guard returns an error having issued and deferred nothing, a mode error with that mode's error. Otherwise it stops within the plan and the stack |
| Engine.TracerStopExits | internal/handlers/tracer/tracer.go:59-115 | tracer.go's setup exits through `Fatalf` iff the guards pass and then the load fails, or seeding passes and a reader or the reporter fails |
| Engine.TracerEndsEarly | internal/handlers/tracer/tracer.go:35-179 | a run stopped in setup has released nothing after `Fatalf` or a failed guard, and its defers in reverse after a return or panic |
| Engine.TracerRunsThrough | internal/handlers/tracer/tracer.go:35-179 | a completed setup means a valid mode, parsed hosts, root and a successful load |

## Left out

- Perf ring buffers are not modelled. Each is a finite sequence of read outcomes (`Sample`, `Closed`, `OtherErr`), and a run that has consumed them is still waiting (`Running`). Their blocking `Read` is not modelled either.
- The signal goroutine and the `done` rendezvous are concurrency and are not modelled. After the reader closes, the run is taken to pass `<-done`.
- The reporter's `Print` and `Clean` are not modelled. Only construction failure in tracer.go is kept, as fatal.
- All logging is left out.
- The cilium/ebpf library calls are answers of a `Kernel` value, not code:
  - `LoadCollectionSpec`, `NewCollection`, `ebpfClient.Load`;
  - `link.*`, `os.Open` of the cgroup directory, `rlimit.RemoveMemlock`, `perf.NewReader`.
  - Their side effects in the kernel are not modelled.
- `Map.Put` on a kernel map always succeeds here. Its `Fatalf` on failure is not modelled, and the maps start empty.
- `net.LookupAddr`, `utils.IntToIP` and the kernel map's key encoding are abstract. They are the `lookup` and `keyOf` fields of a `Resolver`.
- `utils.ParseHosts` and `utils.IsRoot` are not part of this model. Their results are parameters.
- The `domain` constants are parameters (`ModeNames`, `ModeCodes`). tracer.go's map-name constants are taken to name the same maps as kntrl.go's literals.
- `ebpfman.Client` is not part of this model. Its `Load` is one operation (`ClientLoad`) that succeeds when the spec and the collection do.
- Go map iteration over `Spec.Programs` has no fixed order. Programs are an arbitrary sequence.
- What `Collection.Close` does on a collection that was never loaded (kntrl.go's early error paths) is not modelled. Only its place in the release order is.
- The file open and `bufio.Scanner` line splitting of `/etc/resolv.conf` are not modelled. The file is its lines plus whether the scan failed.
- Strings are sequences of characters, so UTF-8 decoding is not modelled. White space is the `unicode.IsSpace` set. Go's `len` of a string, the scan bound of tracer.go, is its UTF-8 byte length (`Text.ByteLen`).
- Only strict dotted-quad IPv4 parsing is concrete. The IPv6 text grammar is the parameter `v6`, known only to return 16 bytes and to reject white space.
- `utils.ParseProgramName` and the program handles are not modelled. Their only use is in log lines.
- Engine.Engine.RunTracer: the `default` branch of the mode `switch` returns an error in the source. The model states that it is unreachable instead of modelling that return (`ModeGate.SwitchAfterCheck`).

## Findings

| source | as written | input that shows it | evidently intended | confidence | as-written member | corrected member |
|---|---|---|---|---|---|---|
| internal/handlers/tracer/tracer.go:218 | the suffix scan runs `i` up to `len(allowedHosts)`, the length in bytes of the hosts flag string, and indexes the two-element `allowedHostsAddress` with it | hosts flag "a,b" and any event whose lookup returns a name: `i` reaches 2 and the index panics. With an empty hosts flag no suffix is ever tested, so "api.github.com." is never allowed | `i < len(allowedHostsAddress)`, as kntrl/kntrl.go:184 has it | high; not executed | AllowList.TracerBoundPanics | AllowList.FixedBoundRule |
