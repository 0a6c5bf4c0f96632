/** The allow-list rules: seeding the allow map from configured addresses,
    and the per-event rule that adds a destination whose reverse-resolved
    name contains one of two hard-coded strings. The event loop itself is
    `Engine.Engine.EventLoop`; this module gives the functions it is proved
    against and the lemmas about them. */
module AllowList {
  import opened Common
  import opened LittleEndian
  import opened Text
  import opened EventCodec
  import opened NetIP

  /** The allow map: destination key to presence marker. */
  type AllowMap = map<Uint32, Uint32>

  /** Every entry holds the presence marker 1. */
  predicate AllMarked(m: AllowMap)
  {
    forall k :: k in m ==> m[k] == 1
  }

  // ----------------------------------------------------------------- seeding

  /** The map after seeding, and whether `binary.LittleEndian.Uint32` panicked
      on an address shorter than four bytes (the puts before it stay). */
  datatype SeedResult = SeedResult(allow: AllowMap, panicked: bool)

  /** The seeding loop: one put per address, key `Uint32LE(ip)`. It panics
      exactly when some address is shorter than four bytes, and no key is
      lost either way. */
  function SeedAll(m: AllowMap, ips: seq<IP>, value: Uint32): (r: SeedResult)
    ensures r.panicked <==> !AllWide(ips)
    ensures m.Keys <= r.allow.Keys
    decreases |ips|
  {
    if ips == [] then SeedResult(m, false)
    else
      AllWideCons(ips);
      if |ips[0]| < 4 then SeedResult(m, true)
      else SeedAll(m[Uint32LE(ips[0]) := value], ips[1..], value)
  }

  lemma AllWideCons(ips: seq<IP>)
    requires ips != []
    ensures AllWide(ips) <==> |ips[0]| >= 4 && AllWide(ips[1..])
  {
    if |ips[0]| >= 4 && AllWide(ips[1..]) {
      forall i | 0 < i < |ips| ensures |ips[i]| >= 4 {
        assert ips[i] == ips[1..][i - 1];
      }
    }
  }

  /** The keys the addresses of `ips` seed. */
  function SeedKeys(ips: seq<IP>): set<Uint32>
  {
    set i | 0 <= i < |ips| && |ips[i]| >= 4 :: Uint32LE(ips[i])
  }

  predicate AllWide(ips: seq<IP>)
  {
    forall i :: 0 <= i < |ips| ==> |ips[i]| >= 4
  }

  /** `m` with every key of `keys` mapped to `value`. */
  function PutAll(m: AllowMap, keys: set<Uint32>, value: Uint32): (r: AllowMap)
    ensures r.Keys == m.Keys + keys
  {
    map k | k in m.Keys + keys :: if k in keys then value else m[k]
  }

  /** Seeding panics exactly when some address is shorter than four bytes;
      otherwise the result is the old map with every seeded key mapped to
      `value`, whatever the order or repetition of the addresses. */
  lemma {:induction false} SeedClosedForm(m: AllowMap, ips: seq<IP>, value: Uint32)
    ensures SeedAll(m, ips, value).panicked <==> !AllWide(ips)
    ensures AllWide(ips) ==> SeedAll(m, ips, value).allow == PutAll(m, SeedKeys(ips), value)
    decreases |ips|
  {
    if ips != [] && |ips[0]| >= 4 {
      var k := Uint32LE(ips[0]);
      SeedClosedForm(m[k := value], ips[1..], value);
      SeedKeysCons(ips);
      AllWideCons(ips);
      if AllWide(ips) {
        PutAllCons(m, k, SeedKeys(ips[1..]), value);
      }
    }
  }

  /** Seeding, panicking or not, keeps every entry and sets only `value`. */
  lemma {:induction false} SeedMonotone(m: AllowMap, ips: seq<IP>, value: Uint32)
    ensures var r := SeedAll(m, ips, value).allow;
            && m.Keys <= r.Keys
            && (forall k :: k in r ==> r[k] == value || (k in m && r[k] == m[k]))
    decreases |ips|
  {
    if ips != [] && |ips[0]| >= 4 {
      SeedMonotone(m[Uint32LE(ips[0]) := value], ips[1..], value);
    }
  }

  lemma SeedKeysCons(ips: seq<IP>)
    requires ips != [] && |ips[0]| >= 4
    ensures SeedKeys(ips) == {Uint32LE(ips[0])} + SeedKeys(ips[1..])
  {
    forall x | x in SeedKeys(ips) ensures x in {Uint32LE(ips[0])} + SeedKeys(ips[1..]) {
      var i :| 0 <= i < |ips| && |ips[i]| >= 4 && x == Uint32LE(ips[i]);
      if i > 0 {
        assert ips[1..][i - 1] == ips[i];
      }
    }
    forall x | x in SeedKeys(ips[1..]) ensures x in SeedKeys(ips) {
      var i :| 0 <= i < |ips[1..]| && |ips[1..][i]| >= 4 && x == Uint32LE(ips[1..][i]);
      assert ips[i + 1] == ips[1..][i];
    }
  }

  lemma PutAllCons(m: AllowMap, k: Uint32, keys: set<Uint32>, value: Uint32)
    ensures PutAll(m[k := value], keys, value) == PutAll(m, {k} + keys, value)
  {
  }

  /** After seeding with no panic, every address's key is present with
      `value`, and nothing already present is lost. */
  lemma SeedContainsAll(m: AllowMap, ips: seq<IP>, value: Uint32)
    requires AllWide(ips)
    ensures var r := SeedAll(m, ips, value).allow;
            && m.Keys <= r.Keys
            && forall i :: 0 <= i < |ips| ==> Uint32LE(ips[i]) in r && r[Uint32LE(ips[i])] == value
  {
    SeedClosedForm(m, ips, value);
  }

  /** Seeding an address twice leaves the same map as seeding it once. */
  lemma SeedIdempotent(m: AllowMap, ips: seq<IP>, value: Uint32)
    requires AllWide(ips)
    ensures AllWide(ips + ips)
    ensures SeedAll(m, ips + ips, value) == SeedAll(m, ips, value)
  {
    SeedClosedForm(m, ips, value);
    SeedClosedForm(m, ips + ips, value);
    assert SeedKeys(ips + ips) == SeedKeys(ips) by {
      forall x | x in SeedKeys(ips + ips) ensures x in SeedKeys(ips) {
        var i :| 0 <= i < |ips + ips| && |(ips + ips)[i]| >= 4 && x == Uint32LE((ips + ips)[i]);
        if i >= |ips| {
          assert (ips + ips)[i] == ips[i - |ips|];
        }
      }
      forall x | x in SeedKeys(ips) ensures x in SeedKeys(ips + ips) {
        var i :| 0 <= i < |ips| && |ips[i]| >= 4 && x == Uint32LE(ips[i]);
        assert (ips + ips)[i] == ips[i];
      }
    }
  }

  // ------------------------------------------------------------ event rule

  /** The two strings `Run` matches resolved names against. */
  const AllowSuffixes: seq<string> := [".github.com", ".kondukto.io"]

  /** What `net.LookupAddr` returned: the names, and whether it failed. */
  datatype Lookup = Lookup(names: seq<string>, failed: bool)

  /** The reverse-DNS resolver and the key `utils.IntToIP` and the map's
      key encoding make of a destination address; neither is part of this
      model. */
  datatype Resolver = Resolver(lookup: Uint32 -> Lookup, keyOf: Uint32 -> Uint32)

  /** The names the loop scans: a failed lookup gets "." appended. */
  function Resolved(l: Lookup): (r: seq<string>)
    ensures l.failed ==> r != [] && r[|r| - 1] == "."
  {
    if l.failed then l.names + ["."] else l.names
  }

  /** Some name contains some string of `suffixes` anywhere in it. */
  predicate AnyMatch(names: seq<string>, suffixes: seq<string>)
  {
    exists v, i :: 0 <= v < |names| && 0 <= i < |suffixes| && Contains(names[v], suffixes[i])
  }

  /** The suffixes a scan bounded by `bound` reaches before the index runs
      off the end of `AllowSuffixes`. */
  function Tested(bound: nat): (r: seq<string>)
    ensures |r| <= |AllowSuffixes| && r == AllowSuffixes[..|r|]
  {
    if bound < |AllowSuffixes| then AllowSuffixes[..bound] else AllowSuffixes
  }

  /** The scan indexes `AllowSuffixes[i]` with `i == |AllowSuffixes|`: this
      happens when the bound is too large and there is a name to scan. */
  predicate ScanPanics(bound: nat, names: seq<string>)
  {
    bound > |AllowSuffixes| && names != []
  }

  /** The bound in kntrl.go: the length of the suffix list. */
  const FixedBound: nat := |AllowSuffixes|

  /** A failed lookup contributes ".", which contains neither string. */
  lemma DotMatchesNothing()
    ensures !AnyMatch(["."], AllowSuffixes)
  {
    ShortNeverContains(".", AllowSuffixes[0]);
    ShortNeverContains(".", AllowSuffixes[1]);
  }

  /** A failed lookup that returned no names never adds anything. */
  lemma FailedLookupNeverMatches(bound: nat)
    ensures Resolved(Lookup([], true)) == ["."]
    ensures !AnyMatch(["."], Tested(bound))
  {
    DotMatchesNothing();
  }

  /** The test is containment, not a suffix test: a name with a matching
      string in its middle matches. */
  lemma ContainmentNotSuffix()
    ensures AnyMatch(["build.github.com.example.net."], AllowSuffixes)
  {
    var n := "build.github.com.example.net.";
    assert n == "build" + AllowSuffixes[0] + ".example.net.";
    assert OccursAt(n, AllowSuffixes[0], 5);
    assert Contains(["build.github.com.example.net."][0], AllowSuffixes[0]);
  }

  /** ...and a name no longer than the strings that does not start with
      their dot never matches: the bare domains themselves do not. */
  lemma ShortUndottedNameDoesNotMatch(name: string)
    requires |name| <= |AllowSuffixes[0]| && (name == [] || name[0] != '.')
    ensures !AnyMatch([name], AllowSuffixes)
  {
    ShortNeverContains(name, AllowSuffixes[1]);
    if |name| < |AllowSuffixes[0]| {
      ShortNeverContains(name, AllowSuffixes[0]);
    } else {
      SameLengthDiffers(name, AllowSuffixes[0]);
    }
  }

  lemma BareDomainsDoNotMatch()
    ensures !AnyMatch(["github.com"], AllowSuffixes)
    ensures !AnyMatch(["kondukto.io"], AllowSuffixes)
  {
    ShortUndottedNameDoesNotMatch("github.com");
    ShortUndottedNameDoesNotMatch("kondukto.io");
  }

  /** Two strings of one length that differ in their first character. */
  lemma SameLengthDiffers(s: string, sub: string)
    requires |s| == |sub| > 0 && s[0] != sub[0]
    ensures !Contains(s, sub)
  {
  }

  // ------------------------------------------------------------- the loop

  /** One blocking read of the opened-events perf buffer. `OtherErr` is a
      read error other than `perf.ErrClosed`; it comes with an empty
      record. */
  datatype ReadOutcome = Sample(raw: seq<Byte>) | Closed | OtherErr

  /** The allow map and the reused `event` variable after one non-closing
      read, and whether the suffix scan panicked. */
  datatype StepResult = StepResult(allow: AllowMap, event: IP4Event, panicked: bool)

  /** One pass of the loop body for a read that is not `Closed`. */
  function EventStep(m: AllowMap, event: IP4Event, read: ReadOutcome, bound: nat, res: Resolver): (r: StepResult)
    requires !read.Closed?
    ensures read.OtherErr? || |read.raw| < RecordSize ==> r == StepResult(m, event, false)
    ensures read.Sample? && |read.raw| >= RecordSize ==>
              && r.event == Decode(read.raw).value
              && r.allow.Keys <= m.Keys + {res.keyOf(r.event.daddr)}
    ensures m.Keys <= r.allow.Keys
    ensures r.panicked ==> bound > |AllowSuffixes|
  {
    var raw := if read.Sample? then read.raw else [];
    match Decode(raw)
    case Err(_) => StepResult(m, event, false)
    case Ok(e) =>
      var names := Resolved(res.lookup(e.daddr));
      var m' := if AnyMatch(names, Tested(bound)) then m[res.keyOf(e.daddr) := 1] else m;
      StepResult(m', e, ScanPanics(bound, names))
  }

  /** How the loop ended: on the closed reader (normal end), on the
      out-of-range panic, or still blocked waiting for the next read. */
  datatype LoopEnd = ReaderClosed | ScanPanicked | AwaitingRead

  datatype LoopResult = LoopResult(allow: AllowMap, event: IP4Event, end: LoopEnd)

  /** The loop over a sequence of input: it stops at the first `Closed` or
      at a panic, and otherwise waits for more input. */
  function Consume(m: AllowMap, event: IP4Event, input: seq<ReadOutcome>, bound: nat, res: Resolver): (r: LoopResult)
    ensures r.end == AwaitingRead ==> Closed !in input
    ensures r.end == ReaderClosed ==> Closed in input
    ensures r.end == ScanPanicked ==> bound > |AllowSuffixes|
    ensures m.Keys <= r.allow.Keys
    decreases |input|
  {
    if input == [] then LoopResult(m, event, AwaitingRead)
    else if input[0].Closed? then LoopResult(m, event, ReaderClosed)
    else
      assert input == [input[0]] + input[1..];
      var s := EventStep(m, event, input[0], bound, res);
      if s.panicked then LoopResult(s.allow, s.event, ScanPanicked)
      else Consume(s.allow, s.event, input[1..], bound, res)
  }

  /** The allow map only grows: every key stays, and every value is either
      kept or set to the marker 1. */
  lemma {:induction false} ConsumeMonotone(m: AllowMap, event: IP4Event, input: seq<ReadOutcome>, bound: nat, res: Resolver)
    ensures var r := Consume(m, event, input, bound, res).allow;
            && m.Keys <= r.Keys
            && (forall k :: k in m ==> r[k] == m[k] || r[k] == 1)
            && (AllMarked(m) ==> AllMarked(r))
    decreases |input|
  {
    if input != [] && !input[0].Closed? {
      var s := EventStep(m, event, input[0], bound, res);
      if !s.panicked {
        ConsumeMonotone(s.allow, s.event, input[1..], bound, res);
      }
    }
  }

  /** Nothing after the first `Closed` is read. */
  lemma {:induction false} ClosedEndsLoop(m: AllowMap, event: IP4Event, input: seq<ReadOutcome>, rest: seq<ReadOutcome>, bound: nat, res: Resolver)
    ensures Consume(m, event, input + [Closed] + rest, bound, res) == Consume(m, event, input + [Closed], bound, res)
    ensures Consume(m, event, input + [Closed], bound, res).end != AwaitingRead
    decreases |input|
  {
    if input == [] {
      assert input + [Closed] + rest == [Closed] + rest;
      assert input + [Closed] == [Closed];
    } else {
      assert (input + [Closed] + rest)[1..] == input[1..] + [Closed] + rest;
      assert (input + [Closed])[1..] == input[1..] + [Closed];
      if !input[0].Closed? {
        var s := EventStep(m, event, input[0], bound, res);
        ClosedEndsLoop(s.allow, s.event, input[1..], rest, bound, res);
      }
    }
  }

  /** A read error other than `Closed`, and a sample shorter than a record,
      change nothing and do not end the loop. */
  lemma SkippedReads(m: AllowMap, event: IP4Event, read: ReadOutcome, rest: seq<ReadOutcome>, bound: nat, res: Resolver)
    requires read.OtherErr? || (read.Sample? && |read.raw| < RecordSize)
    ensures EventStep(m, event, read, bound, res) == StepResult(m, event, false)
    ensures Consume(m, event, [read] + rest, bound, res) == Consume(m, event, rest, bound, res)
  {
    assert ([read] + rest)[1..] == rest;
  }

  /** Processing the same read twice gives what processing it once gives. */
  lemma DuplicateReadIdempotent(m: AllowMap, event: IP4Event, read: ReadOutcome, bound: nat, res: Resolver)
    requires !read.Closed?
    ensures var once := EventStep(m, event, read, bound, res);
            EventStep(once.allow, once.event, read, bound, res) == once
  {
  }

  /** With the bound of kntrl.go the scan never panics, and a decoded
      event's destination ends up in the map exactly when it was there
      already or some resolved name contains one of the two strings. */
  lemma FixedBoundRule(m: AllowMap, event: IP4Event, raw: seq<Byte>, res: Resolver)
    requires |raw| >= RecordSize
    ensures var e := Decode(raw).value;
            var s := EventStep(m, event, Sample(raw), FixedBound, res);
            && !s.panicked
            && s.event == e
            && s.allow.Keys <= m.Keys + {res.keyOf(e.daddr)}
            && (res.keyOf(e.daddr) in s.allow <==>
                  res.keyOf(e.daddr) in m || AnyMatch(Resolved(res.lookup(e.daddr)), AllowSuffixes))
  {
    assert Tested(FixedBound) == AllowSuffixes;
  }

  // -------------------------------------------- the scan bound of tracer.go

  /** In tracer.go the bound is Go's `len` of the hosts flag string, its
      length in bytes: with the three-byte flag "a,b" and any resolved name,
      the scan indexes past the end of the two-element suffix list. */
  lemma TracerBoundPanics(res: Resolver, raw: seq<Byte>, m: AllowMap, event: IP4Event)
    requires |raw| >= RecordSize
    requires res.lookup(Decode(raw).value.daddr) == Lookup(["x."], false)
    ensures EventStep(m, event, Sample(raw), ByteLen("a,b"), res).panicked
  {
    assert ByteLen("a,b") == 3 by {
      assert forall k :: 0 <= k < |"a,b"| ==> "a,b"[k] as int < 0x80;
    }
  }

  /** The bound counts bytes, not characters: a flag of two two-byte
      characters already gives the bound 4, and the scan panics. */
  lemma TracerBoundCountsBytes(res: Resolver, raw: seq<Byte>, m: AllowMap, event: IP4Event)
    requires |raw| >= RecordSize
    requires res.lookup(Decode(raw).value.daddr) == Lookup(["x."], false)
    ensures |"\U{00E9}\U{00E9}"| == 2 && ByteLen("\U{00E9}\U{00E9}") == 4
    ensures EventStep(m, event, Sample(raw), ByteLen("\U{00E9}\U{00E9}"), res).panicked
  {
    var s := "\U{00E9}\U{00E9}";
    assert s[1..] == "\U{00E9}";
    assert s[1..][1..] == [];
  }

  /** ...and with an empty hosts flag no string is ever tested, so even a
      name that contains ".github.com" adds nothing. */
  lemma TracerBoundSkipsMatch(res: Resolver, raw: seq<Byte>, m: AllowMap, event: IP4Event)
    requires |raw| >= RecordSize
    requires res.lookup(Decode(raw).value.daddr) == Lookup(["api.github.com."], false)
    requires res.keyOf(Decode(raw).value.daddr) !in m
    ensures AnyMatch(["api.github.com."], AllowSuffixes)
    ensures EventStep(m, event, Sample(raw), |""|, res).allow == m
  {
    var n := "api.github.com.";
    assert OccursAt(n, AllowSuffixes[0], 3) by {
      assert n[3..14] == ".github.com";
    }
    assert Contains(["api.github.com."][0], AllowSuffixes[0]);
  }
}
