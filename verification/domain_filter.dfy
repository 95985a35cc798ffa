/**
 The domain filter of pkg/proxy/domainfilter.go. The code compares text; the specification
 compares the dot-separated labels of names.
 */
module DomainFilters {
  import opened Wrappers
  import opened Texts
  import opened Messages

  datatype Pattern = Pattern(wildcard: bool, suffix: string)

  datatype DomainFilter = DomainFilter(allow: seq<Pattern>, deny: seq<Pattern>)

  function Normalized(s: string): string {
    ToLower(TrimDot(TrimSpace(s)))
  }

  /** One raw pattern, already normalized and not empty. */
  function PatternOf(p: string): Pattern
    requires p != ""
  {
    if p == "*" then Pattern(true, "")
    else if |p| >= 2 && p[..2] == "*." then Pattern(true, p[1..])
    else Pattern(false, p)
  }

  function Parsed(raw: seq<string>): seq<Pattern> {
    if raw == [] then [] else
      var p := Normalized(raw[|raw| - 1]);
      Parsed(raw[..|raw| - 1]) + if p == "" then [] else [PatternOf(p)]
  }

  predicate Matches(domain: string, p: Pattern) {
    if p.wildcard
    then p.suffix == "" || HasSuffix(domain, p.suffix) || domain == p.suffix[1..]
    else domain == p.suffix
  }

  predicate MatchesSome(domain: string, patterns: seq<Pattern>) {
    exists i :: 0 <= i < |patterns| && Matches(domain, patterns[i])
  }

  predicate IsAllowed(f: Option<DomainFilter>, domain: string) {
    var d := Normalized(domain);
    f.None? || d == "" ||
    ((f.value.allow == [] || MatchesSome(d, f.value.allow)) && !MatchesSome(d, f.value.deny))
  }

  function FilterOf(allow: seq<string>, deny: seq<string>): Option<DomainFilter> {
    if Parsed(allow) == [] && Parsed(deny) == [] then None else Some(DomainFilter(Parsed(allow), Parsed(deny)))
  }

  // ---------------------------------------------------------------- the code's loops

  method ParsePatterns(raw: seq<string>) returns (patterns: seq<Pattern>)
    ensures patterns == Parsed(raw)
  {
    patterns := [];
    for i := 0 to |raw|
      invariant patterns == Parsed(raw[..i])
    {
      assert raw[..i + 1][..i] == raw[..i];
      var p := Normalized(raw[i]);
      if p == "" {
        continue;
      }
      if p == "*" {
        patterns := patterns + [Pattern(true, "")];
        continue;
      }
      if |p| >= 2 && p[..2] == "*." {
        patterns := patterns + [Pattern(true, p[1..])];
        continue;
      }
      patterns := patterns + [Pattern(false, p)];
    }
    assert raw[..|raw|] == raw;
  }

  method NewDomainFilter(allow: seq<string>, deny: seq<string>) returns (f: Option<DomainFilter>)
    ensures f == FilterOf(allow, deny)
  {
    var allowPatterns := ParsePatterns(allow);
    var denyPatterns := ParsePatterns(deny);
    if |allowPatterns| == 0 && |denyPatterns| == 0 {
      return None;
    }
    return Some(DomainFilter(allowPatterns, denyPatterns));
  }

  method MatchesAny(domain: string, patterns: seq<Pattern>) returns (found: bool)
    ensures found == MatchesSome(domain, patterns)
  {
    for i := 0 to |patterns|
      invariant forall j :: 0 <= j < i ==> !Matches(domain, patterns[j])
    {
      var p := patterns[i];
      if p.wildcard {
        if p.suffix == "" || HasSuffix(domain, p.suffix) || domain == p.suffix[1..] {
          return true;
        }
        continue;
      }
      if domain == p.suffix {
        return true;
      }
    }
    return false;
  }

  method Allowed(f: Option<DomainFilter>, domain: string) returns (ok: bool)
    ensures ok == IsAllowed(f, domain)
  {
    if f.None? {
      return true;
    }
    var normalized := Normalized(domain);
    if normalized == "" {
      return true;
    }
    if |f.value.allow| > 0 {
      var allowed := MatchesAny(normalized, f.value.allow);
      if !allowed {
        return false;
      }
    }
    if |f.value.deny| > 0 {
      var denied := MatchesAny(normalized, f.value.deny);
      if denied {
        return false;
      }
    }
    return true;
  }

  // ---------------------------------------------------------------- labels

  /** The dot-separated labels of a name, left to right. */
  function Labels(s: string): (labels: seq<string>)
    ensures labels != []
  {
    if s == "" then [""] else AddChar(Labels(s[..|s| - 1]), s[|s| - 1])
  }

  function AddChar(labels: seq<string>, c: char): (r: seq<string>)
    requires labels != []
    ensures r != []
  {
    if c == '.' then labels + [""] else labels[|labels| - 1 := labels[|labels| - 1] + [c]]
  }

  function Joined(labels: seq<string>): string
    requires labels != []
  {
    if |labels| == 1 then labels[0] else Joined(labels[..|labels| - 1]) + "." + labels[|labels| - 1]
  }

  lemma {:induction false} JoinedLabels(s: string)
    ensures Joined(Labels(s)) == s
  {
    if s != "" {
      var init, c := s[..|s| - 1], s[|s| - 1];
      JoinedLabels(init);
      var rest, all := Labels(init), Labels(s);
      if c == '.' {
        assert all[..|all| - 1] == rest;
      } else {
        assert all[..|all| - 1] == rest[..|rest| - 1];
      }
    }
  }

  lemma AddCharToConcat(x: seq<string>, y: seq<string>, c: char)
    requires y != []
    ensures AddChar(x + y, c) == x + AddChar(y, c)
  {
  }

  lemma {:induction false} LabelsOfConcat(a: string, b: string)
    ensures Labels(a + "." + b) == Labels(a) + Labels(b)
  {
    var s := a + "." + b;
    if b == "" {
      assert s[..|s| - 1] == a && s[|s| - 1] == '.';
    } else {
      var init, c := b[..|b| - 1], b[|b| - 1];
      LabelsOfConcat(a, init);
      assert s[..|s| - 1] == a + "." + init && s[|s| - 1] == c;
      AddCharToConcat(Labels(a), Labels(init), c);
    }
  }

  lemma {:induction false} JoinedConcat(x: seq<string>, y: seq<string>)
    requires x != [] && y != []
    ensures Joined(x + y) == Joined(x) + "." + Joined(y)
  {
    if |y| == 1 {
      assert (x + y)[..|x|] == x;
    } else {
      var init := y[..|y| - 1];
      JoinedConcat(x, init);
      assert (x + y)[..|x + y| - 1] == x + init;
    }
  }

  ghost predicate LabelSuffix(base: string, d: string) {
    |Labels(base)| <= |Labels(d)| && Labels(d)[|Labels(d)| - |Labels(base)|..] == Labels(base)
  }

  lemma TextSuffixIsLabelSuffix(base: string, d: string)
    requires HasSuffix(d, "." + base)
    ensures LabelSuffix(base, d)
  {
    var front := d[..|d| - |base| - 1];
    assert d == front + ("." + base) == front + "." + base;
    LabelsOfConcat(front, base);
    assert (Labels(front) + Labels(base))[|Labels(front)|..] == Labels(base);
  }

  lemma LabelSuffixIsTextSuffix(base: string, d: string)
    requires LabelSuffix(base, d) && d != base
    ensures HasSuffix(d, "." + base)
  {
    JoinedLabels(base);
    JoinedLabels(d);
    var front := Labels(d)[..|Labels(d)| - |Labels(base)|];
    assert Labels(d) == front + Labels(base);
    assert front == [] ==> Labels(d) == Labels(base);
    JoinedConcat(front, Labels(base));
    EndsWith(Joined(front), base);
  }

  lemma EndsWith(front: string, base: string)
    ensures HasSuffix(front + "." + base, "." + base)
  {
  }

  /** Wildcards: the text test for "*.base" holds exactly when base's labels are a suffix of d's labels. */
  lemma WildcardMatchesIffLabelSuffix(base: string, d: string)
    ensures Matches(d, Pattern(true, "." + base)) <==> LabelSuffix(base, d)
  {
    var dotted := "." + base;
    assert dotted[1..] == base;
    if HasSuffix(d, dotted) {
      TextSuffixIsLabelSuffix(base, d);
    } else if LabelSuffix(base, d) && d != base {
      LabelSuffixIsTextSuffix(base, d);
    }
  }

  lemma EqualIffEqualLabels(a: string, b: string)
    ensures a == b <==> Labels(a) == Labels(b)
  {
    JoinedLabels(a);
    JoinedLabels(b);
  }

  // ---------------------------------------------------------------- the label-level specification

  /** What one raw pattern means for a normalized name. */
  ghost predicate Covers(raw: string, d: string) {
    var p := Normalized(raw);
    && p != ""
    && (p == "*" ||
        (if |p| >= 2 && p[..2] == "*." then LabelSuffix(p[2..], d) else Labels(p) == Labels(d)))
  }

  ghost predicate CoveredBySome(raw: seq<string>, d: string) {
    exists i :: 0 <= i < |raw| && Covers(raw[i], d)
  }

  /** Some pattern of the list is not blank. */
  ghost predicate Effective(raw: seq<string>) {
    exists i :: 0 <= i < |raw| && Normalized(raw[i]) != ""
  }

  ghost predicate AllowedByLabels(allow: seq<string>, deny: seq<string>, domain: string) {
    var d := Normalized(domain);
    d == "" || ((Effective(allow) ==> CoveredBySome(allow, d)) && !CoveredBySome(deny, d))
  }

  lemma MatchesIffCovers(raw: string, d: string)
    requires Normalized(raw) != ""
    ensures Matches(d, PatternOf(Normalized(raw))) <==> Covers(raw, d)
  {
    var p := Normalized(raw);
    if |p| >= 2 && p[..2] == "*." {
      assert p[1..] == "." + p[2..];
      WildcardMatchesIffLabelSuffix(p[2..], d);
    } else {
      EqualIffEqualLabels(p, d);
    }
  }

  lemma {:induction false} ParsedMeansCovered(raw: seq<string>, d: string)
    ensures MatchesSome(d, Parsed(raw)) <==> CoveredBySome(raw, d)
    ensures Parsed(raw) == [] <==> !Effective(raw)
  {
    if raw != [] {
      var init, last := raw[..|raw| - 1], raw[|raw| - 1];
      ParsedMeansCovered(init, d);
      RawOfOneMore(raw, d);
      if Normalized(last) != "" {
        MatchesIffCovers(last, d);
        SomeOfOneMore(d, Parsed(init), PatternOf(Normalized(last)));
      } else {
        assert Parsed(raw) == Parsed(init);
      }
    }
  }

  lemma RawOfOneMore(raw: seq<string>, d: string)
    requires raw != []
    ensures var init, last := raw[..|raw| - 1], raw[|raw| - 1];
            && (CoveredBySome(raw, d) <==> CoveredBySome(init, d) || Covers(last, d))
            && (Effective(raw) <==> Effective(init) || Normalized(last) != "")
  {
    var init := raw[..|raw| - 1];
    assert forall i :: 0 <= i < |init| ==> raw[i] == init[i];
  }

  lemma SomeOfOneMore(d: string, ps: seq<Pattern>, p: Pattern)
    ensures MatchesSome(d, ps + [p]) <==> MatchesSome(d, ps) || Matches(d, p)
  {
    assert forall i :: 0 <= i < |ps| ==> (ps + [p])[i] == ps[i];
    assert (ps + [p])[|ps|] == p;
  }

  /** The filter decides by labels: an effective allow list must cover the name, and deny overrides. */
  lemma FilterDecidesByLabels(allow: seq<string>, deny: seq<string>, domain: string)
    ensures IsAllowed(FilterOf(allow, deny), domain) <==> AllowedByLabels(allow, deny, domain)
  {
    var d := Normalized(domain);
    ParsedMeansCovered(allow, d);
    ParsedMeansCovered(deny, d);
  }

  /** More deny patterns only shrink what is allowed; more patterns in an effective allow list only grow it. */
  lemma FilterIsMonotone(allow: seq<string>, deny: seq<string>, more: seq<string>, domain: string)
    ensures IsAllowed(FilterOf(allow, deny + more), domain) ==> IsAllowed(FilterOf(allow, deny), domain)
    ensures Effective(allow) && IsAllowed(FilterOf(allow, deny), domain) ==>
              IsAllowed(FilterOf(allow + more, deny), domain)
  {
    var d := Normalized(domain);
    FilterDecidesByLabels(allow, deny + more, domain);
    FilterDecidesByLabels(allow, deny, domain);
    FilterDecidesByLabels(allow + more, deny, domain);
    assert forall i :: 0 <= i < |deny| ==> (deny + more)[i] == deny[i];
    assert forall i :: 0 <= i < |allow| ==> (allow + more)[i] == allow[i];
  }

  // ---------------------------------------------------------------- when a filter refuses anything

  ghost predicate HasStar(raw: seq<string>) {
    exists i :: 0 <= i < |raw| && Normalized(raw[i]) == "*"
  }

  /** A filter refuses some name iff it denies something, or allows something but not everything. */
  lemma RefusesSomethingIff(allow: seq<string>, deny: seq<string>)
    ensures (exists d :: !IsAllowed(FilterOf(allow, deny), d)) <==>
            Effective(deny) || (Effective(allow) && !HasStar(allow))
  {
    if Effective(deny) {
      var i :| 0 <= i < |deny| && Normalized(deny[i]) != "";
      CoversItself(deny[i]);
      FilterDecidesByLabels(allow, deny, deny[i]);
      assert CoveredBySome(deny, Normalized(deny[i]));
    } else if Effective(allow) && !HasStar(allow) {
      var d := Beyond(allow, 0);
      LongNameNormalized(d);
      forall i | 0 <= i < |allow| ensures !Covers(allow[i], d) {
        NotCoveredByShorter(allow[i], d);
      }
      FilterDecidesByLabels(allow, deny, d);
    } else {
      forall d ensures IsAllowed(FilterOf(allow, deny), d) {
        FilterDecidesByLabels(allow, deny, d);
        if HasStar(allow) {
          var i :| 0 <= i < |allow| && Normalized(allow[i]) == "*";
          assert Covers(allow[i], Normalized(d));
        }
      }
    }
  }

  lemma CoversItself(raw: string)
    requires Normalized(raw) != ""
    ensures Covers(raw, Normalized(raw))
  {
    var p := Normalized(raw);
    if |p| >= 2 && p[..2] == "*." {
      assert p == "*" + "." + p[2..];
      LabelsOfConcat("*", p[2..]);
    }
  }

  /** A one-label name longer than every normalized pattern from number i on. */
  function Beyond(raw: seq<string>, i: nat): (d: string)
    ensures d != "" && forall j :: 0 <= j < |d| ==> d[j] == 'a'
    ensures forall j :: i <= j < |raw| ==> |Normalized(raw[j])| < |d|
    decreases |raw| - i
  {
    if |raw| <= i then "a" else
      var d := Beyond(raw, i + 1);
      d + seq(|Normalized(raw[i])|, _ => 'a')
  }

  lemma LongNameNormalized(d: string)
    requires d != "" && forall j :: 0 <= j < |d| ==> d[j] == 'a'
    ensures Normalized(d) == d
  {
    assert TrimLeft(d) == d && TrimRight(d) == d;
  }

  lemma {:induction false} OneLabel(d: string)
    requires forall j :: 0 <= j < |d| ==> d[j] == 'a'
    ensures Labels(d) == [d]
  {
    if d != "" {
      OneLabel(d[..|d| - 1]);
      assert d == d[..|d| - 1] + [d[|d| - 1]];
    }
  }

  lemma NotCoveredByShorter(raw: string, d: string)
    requires Normalized(raw) != "*" && |Normalized(raw)| < |d|
    requires forall j :: 0 <= j < |d| ==> d[j] == 'a'
    ensures !Covers(raw, d)
  {
    var p := Normalized(raw);
    OneLabel(d);
    EqualIffEqualLabels(p, d);
    if |p| >= 2 {
      EqualIffEqualLabels(p[2..], d);
    }
  }

  // ---------------------------------------------------------------- names as they are written

  /** Blanks around a name, one dot at its end and its letter case make no difference. */
  lemma NormalizedIsLowerCaseCore(before: string, core: string, after: string)
    requires AllBlank(before) && AllBlank(after) && IsCore(core) && core[|core| - 1] != '.'
    ensures Normalized(before + core + after) == ToLower(core)
    ensures Normalized(before + core + "." + after) == ToLower(core)
  {
    TrimSpaceIsTheCore(before, core, after);
    TrimSpaceIsTheCore(before, core + ".", after);
    assert before + core + "." + after == before + (core + ".") + after;
    TrimDotDropsOneDot(core);
  }

  /** The rule for a whole request: the labels of its first question's name decide, less one final dot. */
  ghost predicate LabelsAllow(allow: seq<string>, deny: seq<string>, request: Msg) {
    request.question != [] ==>
      var name := request.question[0].name;
      AllowedByLabels(allow, deny, if name != "" && name[|name| - 1] == '.' then name[..|name| - 1] else name)
  }

  lemma RequestDecidedByLabels(allow: seq<string>, deny: seq<string>, request: Msg)
    ensures IsAllowed(FilterOf(allow, deny), NormalizeDomain(Some(request))) <==> LabelsAllow(allow, deny, request)
  {
    hide AllowedByLabels, IsAllowed, FilterOf;
    FilterDecidesByLabels(allow, deny, NormalizeDomain(Some(request)));
    EmptyNamePasses(allow, deny);
    if request.question != [] {
      var name := request.question[0].name;
      if name != "" && name[|name| - 1] == '.' {
        assert name == name[..|name| - 1] + ".";
        TrimDotDropsOneDot(name[..|name| - 1]);
      } else {
        TrimDotDropsOneDot(name);
      }
    }
  }

  lemma EmptyNamePasses(allow: seq<string>, deny: seq<string>)
    ensures AllowedByLabels(allow, deny, "")
  {
  }

  /** A name on the deny list is refused in any letter case, with or without its final dot. */
  lemma DeniedNameIsRefused(allow: seq<string>, deny: seq<string>, request: Msg, name: string)
    requires name in deny && IsCore(name) && name[|name| - 1] != '.'
    requires request.question != [] && var q := request.question[0].name;
             ToLower(q) == ToLower(name) || ToLower(q) == ToLower(name + ".")
    ensures !LabelsAllow(allow, deny, request)
  {
    hide Covers, Normalized, Effective, ToLower, IsBlank;
    var q := request.question[0].name;
    var shown := if q != "" && q[|q| - 1] == '.' then q[..|q| - 1] else q;
    ShownInSomeCase(q, name);
    SameLowerSameNormalized(shown, name);
    NormalizedCore(name);
    CoversItself(name);
    var i :| 0 <= i < |deny| && deny[i] == name;
    assert Covers(deny[i], Normalized(shown));
  }

  lemma NormalizedCore(name: string)
    requires IsCore(name) && name[|name| - 1] != '.'
    ensures Normalized(name) == ToLower(name) != ""
  {
    assert "" + name + "" == name;
    NormalizedIsLowerCaseCore("", name, "");
    assert |ToLower(name)| == |name|;
  }

  lemma ShownInSomeCase(q: string, name: string)
    requires name != "" && name[|name| - 1] != '.'
    requires ToLower(q) == ToLower(name) || ToLower(q) == ToLower(name + ".")
    ensures ToLower(if q != "" && q[|q| - 1] == '.' then q[..|q| - 1] else q) == ToLower(name)
  {
    var n := |name|;
    if ToLower(q) == ToLower(name) {
      assert |q| == n && Lower(q[n - 1]) == ToLower(q)[n - 1] == Lower(name[n - 1]);
    } else {
      assert |q| == n + 1 && Lower(q[n]) == ToLower(q)[n] == Lower('.');
      forall k | 0 <= k < n ensures Lower(q[k]) == Lower(name[k]) {
        assert ToLower(q)[k] == ToLower(name + ".")[k];
      }
      assert ToLower(q[..n]) == ToLower(name);
    }
  }

  lemma SameLowerSameNormalized(a: string, b: string)
    requires ToLower(a) == ToLower(b)
    ensures Normalized(a) == Normalized(b)
  {
    NormalizedOfLower(a);
    NormalizedOfLower(b);
  }

  lemma NormalizedOfLower(s: string)
    ensures Normalized(s) == TrimDot(TrimSpace(ToLower(s)))
  {
    TrimLeftLower(s);
    TrimRightLower(TrimLeft(s));
    TrimDotLower(TrimSpace(s));
  }

  // ---------------------------------------------------------------- cache keys and the filter

  /** The name the proxy shows to the filter. */
  function NormalizeDomain(request: Option<Msg>): string {
    if request.None? || request.value.question == [] then "" else TrimDot(request.value.question[0].name)
  }

  lemma NormalizedByLower(name: string)
    ensures Normalized(TrimDot(name)) == TrimDot(TrimSpace(TrimDot(ToLower(name))))
  {
    TrimDotLower(name);
    var t := TrimDot(name);
    TrimLeftLower(t);
    TrimRightLower(TrimLeft(t));
    TrimDotLower(TrimSpace(t));
  }

  /** Requests that share a cache entry always get the same filter decision. */
  lemma SameKeySameDecision(a: Option<Msg>, b: Option<Msg>, f: Option<DomainFilter>)
    requires CacheKey(a).Some? && CacheKey(a) == CacheKey(b)
    ensures IsAllowed(f, NormalizeDomain(a)) == IsAllowed(f, NormalizeDomain(b))
  {
    KeysCollideOnlyForSameQuestion(a.value.question[0], b.value.question[0]);
    NormalizedByLower(a.value.question[0].name);
    NormalizedByLower(b.value.question[0].name);
  }
}
