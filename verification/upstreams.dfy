/**
 Upstreams across three files: how the configuration is validated (cmd/agent/main.go), how health
 targets are labelled (pkg/health/checker.go) and how fallback addresses are written.

 Whether a text is an IP address or a host name is decided by a library; those tests are parameters.
 */
module Upstreams {
  import opened Wrappers
  import opened Texts

  datatype Transport = DNS | DoT | DoH {
    function Name(): string {
      match this case DNS => "dns" case DoT => "dot" case DoH => "doh"
    }

    function DefaultPort(): int {
      match this case DNS => 53 case DoT => 853 case DoH => 443
    }
  }

  /** As configured: the transport is still text, a zero port means "the default". */
  datatype Upstream = Upstream(
    address: string, port: int, transport: string, tlsServerName: string, weight: int, preference: int)

  /** A health check target. */
  datatype Target = Target(address: string, port: int, transport: string, tlsServerName: string)

  /** The validator's parser: unknown text is an error. */
  function ParseTransport(raw: string): Option<Transport> {
    var t := ToLower(TrimSpace(raw));
    if t == "" || t == "dns" then Some(DNS)
    else if t == "dot" then Some(DoT)
    else if t == "doh" then Some(DoH)
    else None
  }

  /** The health checker's parser: unknown text is plain DNS. */
  function NormalizeTransport(raw: string): Transport {
    var t := ToLower(TrimSpace(raw));
    if t == "dot" then DoT else if t == "doh" then DoH else DNS
  }

  function PortOr(port: int, t: Transport): int {
    if port == 0 then t.DefaultPort() else port
  }

  // ---------------------------------------------------------------- labels

  /** net.JoinHostPort */
  function JoinHostPort(host: string, port: int): string {
    Bracketed(host) + ":" + Itoa(port)
  }

  function Bracketed(host: string): string {
    if ':' in host then "[" + host + "]" else host
  }

  function Label(t: Target): string {
    var transport := NormalizeTransport(t.transport);
    var endpoint := JoinHostPort(t.address, PortOr(t.port, transport));
    if transport == DNS then endpoint else transport.Name() + "://" + endpoint
  }

  ghost predicate SameEndpoint(a: Target, b: Target) {
    && a.address == b.address
    && NormalizeTransport(a.transport) == NormalizeTransport(b.transport)
    && PortOr(a.port, NormalizeTransport(a.transport)) == PortOr(b.port, NormalizeTransport(b.transport))
  }

  /** A label is the endpoint as it is dialled, with the encrypted transport's name in front. */
  lemma LabelReadsAsEndpoint(t: Target)
    requires t.port >= 0
    ensures var dot, doh := Reads(t.transport, "dot"), Reads(t.transport, "doh");
            var port := if t.port != 0 then t.port else if dot then 853 else if doh then 443 else 53;
            var host := if ':' in t.address then "[" + t.address + "]" else t.address;
            var scheme := if dot then "dot://" else if doh then "doh://" else "";
            exists numeral :: IsNumeral(numeral, port) && Label(t) == scheme + (host + ":" + numeral)
  {
    ReadsIff(t.transport, "dot");
    ReadsIff(t.transport, "doh");
    var port := PortOr(t.port, NormalizeTransport(t.transport));
    DigitsIsNumeral(port);
    assert IsNumeral(Itoa(port), port);
    assert "dot" + "://" == "dot://" && "doh" + "://" == "doh://";
    hide IsNumeral, Reads, ToLower, TrimSpace, Digits;
  }

  lemma NoColonInItoa(i: int)
    ensures ':' !in Itoa(i)
  {
  }

  lemma BracketedInjective(a: string, b: string)
    requires Bracketed(a) == Bracketed(b)
    ensures a == b
  {
    if ':' in a {
      var k :| 0 <= k < |a| && a[k] == ':';
      assert Bracketed(a)[k + 1] == ':';
    }
    if ':' in b {
      var k :| 0 <= k < |b| && b[k] == ':';
      assert Bracketed(b)[k + 1] == ':';
    }
    if ':' in a && ':' in b {
      assert a == Bracketed(a)[1..|a| + 1] && b == Bracketed(b)[1..|b| + 1];
    }
  }

  lemma JoinHostPortInjective(a: string, p: int, b: string, q: int)
    requires JoinHostPort(a, p) == JoinHostPort(b, q)
    ensures a == b && p == q
  {
    NoColonInItoa(p);
    NoColonInItoa(q);
    LastSeparator(Bracketed(a), Itoa(p), Bracketed(b), Itoa(q), ':');
    BracketedInjective(a, b);
    ItoaInjective(p, q);
  }

  /** A bare endpoint never looks like one with a scheme: either it opens with a bracket or its host has no colon. */
  lemma EndpointHasNoScheme(a: string, p: int, scheme: string, b: string, q: int)
    requires |scheme| == 3 && scheme[0] == 'd'
    ensures JoinHostPort(a, p) != scheme + "://" + JoinHostPort(b, q)
  {
    NoColonInItoa(p);
    NoColonInItoa(q);
    var front := scheme + "://" + Bracketed(b);
    assert scheme + "://" + JoinHostPort(b, q) == front + ":" + Itoa(q);
    assert front[0] == 'd' && front[3] == ':';
    assert Bracketed(a) != front;
    if JoinHostPort(a, p) == scheme + "://" + JoinHostPort(b, q) {
      LastSeparator(Bracketed(a), Itoa(p), front, Itoa(q), ':');
    }
  }

  /** Labels are injective: equal exactly for the same address, transport and port. */
  lemma LabelsInjective(a: Target, b: Target)
    ensures Label(a) == Label(b) <==> SameEndpoint(a, b)
  {
    var s, t := NormalizeTransport(a.transport), NormalizeTransport(b.transport);
    var p, q := PortOr(a.port, s), PortOr(b.port, t);
    if Label(a) == Label(b) {
      if s == DNS && t == DNS {
        JoinHostPortInjective(a.address, p, b.address, q);
      } else if s == DNS {
        EndpointHasNoScheme(a.address, p, t.Name(), b.address, q);
      } else if t == DNS {
        EndpointHasNoScheme(b.address, q, s.Name(), a.address, p);
      } else {
        assert Label(a)[2] == s.Name()[2] && Label(b)[2] == t.Name()[2];
        assert Label(a)[6..] == JoinHostPort(a.address, p) && Label(b)[6..] == JoinHostPort(b.address, q);
        JoinHostPortInjective(a.address, p, b.address, q);
      }
    }
  }

  // ---------------------------------------------------------------- validation

  datatype Problem =
    | AddressHasSpace | BadAddress | BadTransport | BadPort | TLSNameOnDNS | BadTLSName
    | BadWeight | BadPreference | Duplicated

  datatype Checks = Checks(isAddress: string -> bool, isHostname: string -> bool)

  function ProblemOf(u: Upstream, checks: Checks): Option<Problem> {
    var transport := ParseTransport(u.transport);
    var tls := TrimSpace(u.tlsServerName);
    if u.address != TrimSpace(u.address) then Some(AddressHasSpace)
    else if !checks.isAddress(TrimSpace(u.address)) then Some(BadAddress)
    else if transport.None? then Some(BadTransport)
    else if !(0 < PortOr(u.port, transport.value) <= 65535) then Some(BadPort)
    else if transport.value == DNS && tls != "" then Some(TLSNameOnDNS)
    else if tls != "" && !checks.isHostname(TrimDot(ToLower(tls))) then Some(BadTLSName)
    else if !(0 < u.weight <= 100) then Some(BadWeight)
    else if !(0 < u.preference <= 1000) then Some(BadPreference)
    else None
  }

  /** An upstream is valid in itself iff each of its fields is. */
  lemma ValidIffEveryFieldIs(u: Upstream, checks: Checks)
    ensures var plain := Reads(u.transport, "") || Reads(u.transport, "dns");
            ProblemOf(u, checks) == None <==>
            && (u.address == "" || IsCore(u.address)) && checks.isAddress(u.address)
            && (plain || Reads(u.transport, "dot") || Reads(u.transport, "doh"))
            && 0 <= u.port <= 65535
            && (AllBlank(u.tlsServerName) ||
                (!plain && forall before, core, after ::
                   u.tlsServerName == before + core + after && AllBlank(before) && AllBlank(after) && IsCore(core)
                   ==> checks.isHostname(TrimDot(ToLower(core)))))
            && 1 <= u.weight <= 100 && 1 <= u.preference <= 1000
  {
    ReadsIff(u.transport, "");
    ReadsIff(u.transport, "dns");
    ReadsIff(u.transport, "dot");
    ReadsIff(u.transport, "doh");
    TrimmedIffCore(u.address);
    TrimsToNothingIffBlank(u.tlsServerName);
    var b, c, a := TrimSpaceSplits(u.tlsServerName);
    forall before, core, after |
      u.tlsServerName == before + core + after && AllBlank(before) && AllBlank(after) && IsCore(core)
      ensures core == c {
      TrimSpaceIsTheCore(before, core, after);
    }
    hide Reads, AllBlank, IsCore, TrimSpace, ToLower, TrimDot;
  }

  lemma TrimmedIffCore(s: string)
    ensures TrimSpace(s) == s <==> s == "" || IsCore(s)
  {
    var b, c, a := TrimSpaceSplits(s);
    if IsCore(s) {
      assert "" + s + "" == s;
      TrimSpaceIsTheCore("", s, "");
    }
  }

  lemma TrimsToNothingIffBlank(s: string)
    ensures TrimSpace(s) == "" <==> AllBlank(s)
  {
    var b, c, a := TrimSpaceSplits(s);
    if AllBlank(s) {
      BlankTrimsToNothing(s);
    }
  }

  /** The text the validator compares for duplicates. */
  function DuplicateKey(u: Upstream): string {
    var transport := ParseTransport(u.transport).GetOr(DNS);
    transport.Name() + ":" + u.address + ":" + Itoa(PortOr(u.port, transport))
  }

  ghost predicate RepeatsEarlier(upstreams: seq<Upstream>, i: nat)
    requires i < |upstreams|
  {
    exists j :: 0 <= j < i && DuplicateKey(upstreams[j]) == DuplicateKey(upstreams[i])
  }

  /** Upstream number i is valid in itself and repeats no earlier one. */
  ghost predicate Passes(upstreams: seq<Upstream>, checks: Checks, i: nat)
    requires i < |upstreams|
  {
    ProblemOf(upstreams[i], checks) == None && !RepeatsEarlier(upstreams, i)
  }

  /** Upstream number i is the first one the validator rejects, and why. */
  ghost predicate RejectedAt(upstreams: seq<Upstream>, checks: Checks, i: nat, why: Problem) {
    && i < |upstreams|
    && (forall j :: 0 <= j < i ==> Passes(upstreams, checks, j))
    && (if ProblemOf(upstreams[i], checks).Some? then ProblemOf(upstreams[i], checks) == Some(why)
        else why == Duplicated && RepeatsEarlier(upstreams, i))
  }

  ghost predicate Accepted(upstreams: seq<Upstream>, checks: Checks) {
    forall i :: 0 <= i < |upstreams| ==> Passes(upstreams, checks, i)
  }

  method ValidateUpstreams(upstreams: seq<Upstream>, checks: Checks) returns (rejected: Option<(nat, Problem)>)
    ensures rejected.None? <==> Accepted(upstreams, checks)
    ensures rejected.Some? ==> RejectedAt(upstreams, checks, rejected.value.0, rejected.value.1)
  {
    hide ProblemOf, DuplicateKey;
    var seen: set<string> := {};
    for i := 0 to |upstreams|
      invariant forall j :: 0 <= j < i ==> Passes(upstreams, checks, j)
      invariant forall k :: k in seen <==> exists j :: 0 <= j < i && DuplicateKey(upstreams[j]) == k
    {
      var u := upstreams[i];
      var problem := ProblemOf(u, checks);
      if problem.Some? {
        assert !Passes(upstreams, checks, i);
        return Some((i, problem.value));
      }
      var key := DuplicateKey(u);
      if key in seen {
        assert !Passes(upstreams, checks, i);
        return Some((i, Duplicated));
      }
      seen := seen + {key};
    }
    return None;
  }

  lemma DuplicateKeysInjective(u: Upstream, v: Upstream)
    requires ParseTransport(u.transport).Some? && ParseTransport(v.transport).Some?
    requires DuplicateKey(u) == DuplicateKey(v)
    ensures SameEndpoint(TargetOf(u), TargetOf(v))
  {
    var s, t := ParseTransport(u.transport).value, ParseTransport(v.transport).value;
    var p, q := PortOr(u.port, s), PortOr(v.port, t);
    NoColonInItoa(p);
    NoColonInItoa(q);
    LastSeparator(s.Name() + ":" + u.address, Itoa(p), t.Name() + ":" + v.address, Itoa(q), ':');
    ItoaInjective(p, q);
    var x, y := s.Name() + ":" + u.address, t.Name() + ":" + v.address;
    assert x[2] == s.Name()[2] && y[2] == t.Name()[2];
    assert x[4..] == u.address && y[4..] == v.address;
  }

  // ---------------------------------------------------------------- label agreement

  function TargetOf(u: Upstream): Target {
    Target(u.address, u.port, u.transport, u.tlsServerName)
  }

  function TargetsOf(upstreams: seq<Upstream>): seq<Target> {
    seq(|upstreams|, i requires 0 <= i < |upstreams| => TargetOf(upstreams[i]))
  }

  /** Accepted upstreams are exactly those whose single checks pass and whose health labels differ. */
  lemma {:induction false} AcceptedIffDistinctLabels(upstreams: seq<Upstream>, checks: Checks)
    ensures Accepted(upstreams, checks) <==>
            && (forall i :: 0 <= i < |upstreams| ==> ProblemOf(upstreams[i], checks) == None)
            && (forall i, j :: 0 <= j < i < |upstreams| ==>
                  Label(TargetOf(upstreams[j])) != Label(TargetOf(upstreams[i])))
  {
    hide ProblemOf, DuplicateKey, Label, TargetOf;
    if Accepted(upstreams, checks) {
      forall i | 0 <= i < |upstreams| ensures ProblemOf(upstreams[i], checks) == None {
        assert Passes(upstreams, checks, i);
      }
    }
    if forall i :: 0 <= i < |upstreams| ==> ProblemOf(upstreams[i], checks) == None {
      forall i | 0 <= i < |upstreams|
        ensures Passes(upstreams, checks, i) <==>
                forall j :: 0 <= j < i ==> Label(TargetOf(upstreams[j])) != Label(TargetOf(upstreams[i]))
      {
        forall j | 0 <= j < i
          ensures Label(TargetOf(upstreams[j])) == Label(TargetOf(upstreams[i])) <==>
                  DuplicateKey(upstreams[j]) == DuplicateKey(upstreams[i])
        {
          KeysAgreeWithLabels(upstreams[j], upstreams[i], checks);
        }
      }
    }
  }

  lemma KeysAgreeWithLabels(u: Upstream, v: Upstream, checks: Checks)
    requires ProblemOf(u, checks) == ProblemOf(v, checks) == None
    ensures Label(TargetOf(u)) == Label(TargetOf(v)) <==> DuplicateKey(u) == DuplicateKey(v)
  {
    LabelsInjective(TargetOf(u), TargetOf(v));
    if DuplicateKey(u) == DuplicateKey(v) {
      DuplicateKeysInjective(u, v);
    }
  }

  /** What UpdateUpstreams does to one target before it labels it. */
  function NormalizedTarget(t: Target): Target {
    var transport := NormalizeTransport(t.transport);
    Target(t.address, PortOr(t.port, transport), transport.Name(), if transport == DNS then "" else t.tlsServerName)
  }

  function LabelsOf(targets: seq<Target>): set<string> {
    set i | 0 <= i < |targets| :: Label(NormalizedTarget(targets[i]))
  }

  /** The normalized targets, each label kept once, first come first kept. */
  function Deduplicated(targets: seq<Target>): seq<Target> {
    if targets == [] then [] else
      var past, t := targets[..|targets| - 1], NormalizedTarget(targets[|targets| - 1]);
      if Label(t) in LabelsOf(past) then Deduplicated(past) else Deduplicated(past) + [t]
  }

  /** What loadEngineConfig fills in; `tlsDefault` is the name it derives from an address. */
  function FilledIn(u: Upstream, tlsDefault: string -> string): Upstream {
    var transport := ParseTransport(u.transport).GetOr(DNS);
    var tls := TrimSpace(u.tlsServerName);
    u.(transport := transport.Name(),
       port := PortOr(u.port, transport),
       tlsServerName := if transport == DNS then "" else if tls == "" then tlsDefault(u.address) else tls,
       weight := if u.weight == 0 then 1 else u.weight,
       preference := if u.preference == 0 then 100 else u.preference)
  }

  function AllFilledIn(upstreams: seq<Upstream>, tlsDefault: string -> string): seq<Upstream> {
    seq(|upstreams|, i requires 0 <= i < |upstreams| => FilledIn(upstreams[i], tlsDefault))
  }

  /** What loading makes of one upstream: known transport texts, the transport's port, and the defaults. */
  lemma FilledInCompletely(u: Upstream, tlsDefault: string -> string)
    ensures var f := FilledIn(u, tlsDefault);
            var dot, doh := Reads(u.transport, "dot"), Reads(u.transport, "doh");
            && f.address == u.address
            && f.transport == (if dot then "dot" else if doh then "doh" else "dns")
            && f.port == (if u.port != 0 then u.port else if dot then 853 else if doh then 443 else 53)
            && f.weight == (if u.weight == 0 then 1 else u.weight)
            && f.preference == (if u.preference == 0 then 100 else u.preference)
            && (!dot && !doh ==> f.tlsServerName == "")
            && (dot || doh ==> if AllBlank(u.tlsServerName) then f.tlsServerName == tlsDefault(u.address)
                               else f.tlsServerName == TrimSpace(u.tlsServerName))
  {
    ReadsIff(u.transport, "dot");
    ReadsIff(u.transport, "doh");
    TrimsToNothingIffBlank(u.tlsServerName);
    hide Reads, AllBlank, TrimSpace, ToLower;
  }

  lemma {:induction false} DistinctTargetsAreKept(targets: seq<Target>)
    requires forall i :: 0 <= i < |targets| ==> NormalizedTarget(targets[i]) == targets[i]
    requires forall i, j :: 0 <= j < i < |targets| ==> Label(targets[j]) != Label(targets[i])
    ensures Deduplicated(targets) == targets
  {
    hide Label;
    if targets != [] {
      var past := targets[..|targets| - 1];
      DistinctTargetsAreKept(past);
      LastLabelIsNew(targets);
      assert targets == past + [targets[|targets| - 1]];
    }
  }

  lemma LastLabelIsNew(targets: seq<Target>)
    requires targets != []
    requires forall i :: 0 <= i < |targets| ==> NormalizedTarget(targets[i]) == targets[i]
    requires forall i, j :: 0 <= j < i < |targets| ==> Label(targets[j]) != Label(targets[i])
    ensures Label(targets[|targets| - 1]) !in LabelsOf(targets[..|targets| - 1])
  {
  }

  /** The health checker's normalization and de-duplication change nothing in an accepted, filled-in list. */
  lemma {:induction false} DeduplicationDropsNothing(raw: seq<Upstream>, tlsDefault: string -> string, checks: Checks)
    requires Accepted(AllFilledIn(raw, tlsDefault), checks)
    ensures Deduplicated(TargetsOf(AllFilledIn(raw, tlsDefault))) == TargetsOf(AllFilledIn(raw, tlsDefault))
  {
    var upstreams := AllFilledIn(raw, tlsDefault);
    AcceptedIffDistinctLabels(upstreams, checks);
    forall i | 0 <= i < |raw| ensures NormalizedTarget(TargetsOf(upstreams)[i]) == TargetsOf(upstreams)[i] {
      FilledInIsNormalized(raw[i], tlsDefault);
    }
    DistinctTargetsAreKept(TargetsOf(upstreams));
  }

  lemma FilledInIsNormalized(u: Upstream, tlsDefault: string -> string)
    ensures var t := TargetOf(FilledIn(u, tlsDefault)); NormalizedTarget(t) == t
  {
  }

  // ---------------------------------------------------------------- fallback addresses

  /** The address text of one fallback: no brackets are written. */
  function FallbackAddress(u: Upstream): string {
    u.address + ":" + Itoa(if u.port == 0 then 53 else u.port)
  }

  /** Only upstreams whose transport text is exactly "dns" are used as fallbacks. */
  function FallbacksOf(upstreams: seq<Upstream>): seq<string> {
    FirstFallbacks(upstreams, |upstreams|)
  }

  function FirstFallbacks(upstreams: seq<Upstream>, n: nat): seq<string>
    requires n <= |upstreams|
  {
    if n == 0 then [] else
      var u := upstreams[n - 1];
      FirstFallbacks(upstreams, n - 1) + if u.transport == "dns" then [FallbackAddress(u)] else []
  }

  method FallbackUpstreamsFromConfig(upstreams: seq<Upstream>) returns (addrs: seq<string>)
    ensures addrs == FallbacksOf(upstreams)
  {
    addrs := [];
    for i := 0 to |upstreams|
      invariant addrs == FirstFallbacks(upstreams, i)
    {
      var u := upstreams[i];
      if u.transport != "dns" {
        continue;
      }
      var port := u.port;
      if port == 0 {
        port := 53;
      }
      addrs := addrs + [u.address + ":" + Itoa(port)];
    }
  }

  /**
   A fallback is the endpoint the health checker probes for the same upstream if and only if the
   address has no colon: an IPv6 address is written without the brackets it needs.
   */
  lemma FallbackIsProbedEndpointIffNoColon(u: Upstream)
    requires u.transport == "dns"
    ensures FallbackAddress(u) == Label(TargetOf(u)) <==> ':' !in u.address
  {
  }

  /** An IPv6 upstream the validator accepts, whose fallback is not its endpoint. */
  lemma IPv6FallbackDiffers(checks: Checks)
    requires checks.isAddress("::1")
    ensures var u := Upstream("::1", 53, "dns", "", 1, 100);
            Accepted([u], checks) && FallbackAddress(u) != Label(TargetOf(u))
  {
    var u := Upstream("::1", 53, "dns", "", 1, 100);
    assert TrimSpace("::1") == "::1" && TrimSpace("") == "" && TrimSpace("dns") == "dns" && ToLower("dns") == "dns";
    assert ProblemOf(u, checks) == None;
    FallbackIsProbedEndpointIffNoColon(u);
    assert u.address[0] == ':';
  }

  /** The fallbacks are the plain DNS upstreams' addresses and ports, upstream by upstream, in order. */
  lemma {:induction false} FallbacksAreThePlainEndpoints(before: seq<Upstream>, u: Upstream)
    requires u.port >= 0
    ensures u.transport != "dns" ==> FallbacksOf(before + [u]) == FallbacksOf(before)
    ensures u.transport == "dns" ==>
              exists numeral :: IsNumeral(numeral, if u.port == 0 then 53 else u.port) &&
                FallbacksOf(before + [u]) == FallbacksOf(before) + [u.address + ":" + numeral]
    ensures FallbacksOf([]) == []
  {
    FirstOfMore(before, u, |before|);
    var port := if u.port == 0 then 53 else u.port;
    DigitsIsNumeral(port);
    assert IsNumeral(Itoa(port), port);
    hide IsNumeral, Digits;
    var all, past := before + [u], FirstFallbacks(before, |before|);
    assert FirstFallbacks(all, |all|) == past + if u.transport == "dns" then [FallbackAddress(u)] else [];
    assert past + [] == past;
  }

  lemma {:induction false} FirstOfMore(before: seq<Upstream>, u: Upstream, n: nat)
    requires n <= |before|
    ensures FirstFallbacks(before + [u], n) == FirstFallbacks(before, n)
  {
    if n > 0 {
      FirstOfMore(before, u, n - 1);
    }
  }

  /** What the checker probes of a target: the address, the transport's port, and no TLS name on plain DNS. */
  lemma ProbedCompletely(t: Target)
    ensures var p := NormalizedTarget(t);
            var dot, doh := Reads(t.transport, "dot"), Reads(t.transport, "doh");
            && p.address == t.address
            && p.transport == (if dot then "dot" else if doh then "doh" else "dns")
            && p.port == (if t.port != 0 then t.port else if dot then 853 else if doh then 443 else 53)
            && p.tlsServerName == if dot || doh then t.tlsServerName else ""
  {
    ReadsIff(t.transport, "dot");
    ReadsIff(t.transport, "doh");
    hide Reads, ToLower, TrimSpace;
  }

  /** The target is the first of the list with its label. */
  ghost predicate FirstOfItsLabel(targets: seq<Target>, i: int) {
    0 <= i < |targets| &&
    forall j :: 0 <= j < i ==> Label(NormalizedTarget(targets[j])) != Label(NormalizedTarget(targets[i]))
  }

  /** De-duplication keeps exactly the first target of each label, one target after the other. */
  lemma DeduplicatedKeepsFirsts(before: seq<Target>, t: Target)
    ensures FirstOfItsLabel(before + [t], |before|) ==>
              Deduplicated(before + [t]) == Deduplicated(before) + [NormalizedTarget(t)]
    ensures !FirstOfItsLabel(before + [t], |before|) ==> Deduplicated(before + [t]) == Deduplicated(before)
    ensures Deduplicated([]) == []
  {
    hide Label, NormalizedTarget;
    var all := before + [t];
    assert all[..|before|] == before;
    assert all[|before|] == t && forall j :: 0 <= j < |before| ==> all[j] == before[j];
    var name := Label(NormalizedTarget(t));
    if name in LabelsOf(before) {
      var j :| 0 <= j < |before| && Label(NormalizedTarget(before[j])) == name;
      assert all[j] == before[j];
    }
  }

  ghost predicate Carries(targets: seq<Target>, name: string) {
    exists i :: 0 <= i < |targets| && Label(targets[i]) == name
  }

  ghost predicate AllDifferent(targets: seq<Target>) {
    forall i, j :: 0 <= j < i < |targets| ==> Label(targets[j]) != Label(targets[i])
  }

  lemma OneMoreTarget(kept: seq<Target>, t: Target)
    ensures forall name :: Carries(kept + [t], name) <==> Carries(kept, name) || name == Label(t)
    ensures AllDifferent(kept) && !Carries(kept, Label(t)) ==> AllDifferent(kept + [t])
  {
    hide Label;
    var all := kept + [t];
    assert all[|kept|] == t && forall i :: 0 <= i < |kept| ==> all[i] == kept[i];
    forall name | Carries(kept, name) ensures Carries(all, name) {
      var i :| 0 <= i < |kept| && Label(kept[i]) == name;
      assert all[i] == kept[i];
    }
  }

  /** So no two targets of a de-duplicated list share a label, and every label of the list is there. */
  lemma {:induction false} DeduplicatedIsDistinct(targets: seq<Target>)
    ensures AllDifferent(Deduplicated(targets))
    ensures forall name :: name in LabelsOf(targets) <==> Carries(Deduplicated(targets), name)
  {
    hide Label, NormalizedTarget;
    if targets != [] {
      var past, t := targets[..|targets| - 1], NormalizedTarget(targets[|targets| - 1]);
      DeduplicatedIsDistinct(past);
      LabelsOfLast(targets);
      OneMoreTarget(Deduplicated(past), t);
      hide LabelsOf, Carries, AllDifferent;
    }
  }

  lemma LabelsOfLast(targets: seq<Target>)
    requires targets != []
    ensures forall name :: name in LabelsOf(targets) <==>
              name in LabelsOf(targets[..|targets| - 1]) ||
              name == Label(NormalizedTarget(targets[|targets| - 1]))
  {
    hide Label, NormalizedTarget;
    var n, past := |targets| - 1, targets[..|targets| - 1];
    forall name ensures name in LabelsOf(targets) <==>
                        name in LabelsOf(past) || name == Label(NormalizedTarget(targets[n])) {
      if name in LabelsOf(past) {
        var i :| 0 <= i < n && Label(NormalizedTarget(past[i])) == name;
        assert targets[i] == past[i];
      }
      if name in LabelsOf(targets) {
        var i :| 0 <= i <= n && Label(NormalizedTarget(targets[i])) == name;
        assert i < n ==> past[i] == targets[i];
      }
    }
  }
}
